/**
 Inotify watches: per-instance indexes by watch descriptor and by inode, a global registry by inode,
 and delivery of events through the registry.
 */
module Inotify {

  import opened PageFrames

  const IN_ALL_EVENTS: bv32 := 0x0000_0fff
  const IN_UNMOUNT: bv32 := 0x0000_2000
  const IN_Q_OVERFLOW: bv32 := 0x0000_4000
  const IN_IGNORED: bv32 := 0x0000_8000
  const IN_EXCL_UNLINK: bv32 := 0x0400_0000
  const IN_MASK_CREATE: bv32 := 0x1000_0000
  const IN_MASK_ADD: bv32 := 0x2000_0000
  const IN_ONESHOT: bv32 := 0x8000_0000
  const INOTIFY_STORED_MASK: bv32 := IN_ALL_EVENTS | IN_EXCL_UNLINK | IN_ONESHOT

  const I32_MAX: int := 0x7fff_ffff

  type Inode = nat

  type Instance = nat

  /** What happened; the receiving instance adds the watch descriptor. */
  datatype Happening = Happening(mask: bv32, cookie: nat, name: Option<seq<Byte>>)

  datatype QueuedEvent = QueuedEvent(wd: int, what: Happening)

  datatype Watch = Watch(wd: int, inode: Inode, mask: bv32)

  datatype State = State(nextWd: int, watches: map<int, Watch>, wdByInode: map<Inode, int>, queue: seq<QueuedEvent>)

  datatype Entry = Entry(owner: Instance, wd: int)

  type Registry = map<Inode, seq<Entry>>

  /** Live instances, the registry (which refers to instances weakly), and the next instance number. */
  datatype System = System(live: map<Instance, State>, registry: Registry, nextId: nat)

  function Empty(): System {
    System(map[], map[], 1)
  }

  // ----- The registry -----

  /** The entries that a removal leaves, in order. */
  function Retain(entries: seq<Entry>, gone: Entry): (kept: seq<Entry>) {
    if entries == [] then []
    else
      var n := |entries| - 1;
      Retain(entries[..n], gone) + (if entries[n] == gone then [] else [entries[n]])
  }

  /** The entries whose instance is still alive, in order. */
  function Alive(entries: seq<Entry>, live: set<Instance>): (kept: seq<Entry>) {
    if entries == [] then []
    else
      var n := |entries| - 1;
      Alive(entries[..n], live) + (if entries[n].owner in live then [entries[n]] else [])
  }

  function SetEntries(registry: Registry, inode: Inode, entries: seq<Entry>): Registry {
    if entries == [] then registry - {inode} else registry[inode := entries]
  }

  function EntriesOf(registry: Registry, inode: Inode): seq<Entry> {
    if inode in registry then registry[inode] else []
  }

  function RegistryAdd(registry: Registry, inode: Inode, entry: Entry): Registry {
    var entries := EntriesOf(registry, inode);
    registry[inode := if entry in entries then entries else entries + [entry]]
  }

  function RegistryRemove(registry: Registry, inode: Inode, entry: Entry): Registry {
    if inode in registry then SetEntries(registry, inode, Retain(registry[inode], entry)) else registry
  }

  // ----- Operations -----

  function Create(s: System): System {
    s.(live := s.live[s.nextId := State(0, map[], map[], [])], nextId := s.nextId + 1)
  }

  /** The last owner of an instance is gone; its registry entries stay until someone looks. */
  function Free(s: System, id: Instance): System {
    s.(live := s.live - {id})
  }

  datatype AddOutcome = Added(wd: int) | AlreadyExists | InvalidValue

  /** The descriptor that the next new watch gets. */
  function NextWd(st: State): int {
    if st.nextWd > 1 then st.nextWd else 1
  }

  function SaturatingIncrement(wd: int): int {
    if wd >= I32_MAX then I32_MAX else wd + 1
  }

  function NewMask(watch: Watch, mask: bv32): bv32 {
    var requested := mask & INOTIFY_STORED_MASK;
    if mask & IN_MASK_ADD != 0 then watch.mask | requested else requested
  }

  function NewWatch(st: State, inode: Inode, mask: bv32): State {
    var wd := NextWd(st);
    st.(nextWd := SaturatingIncrement(wd),
        watches := st.watches[wd := Watch(wd, inode, mask & INOTIFY_STORED_MASK)],
        wdByInode := st.wdByInode[inode := wd])
  }

  function AddOutcomeOf(st: State, inode: Inode, mask: bv32): AddOutcome {
    if inode !in st.wdByInode then Added(NextWd(st))
    else if st.wdByInode[inode] !in st.watches then InvalidValue
    else if mask & IN_MASK_CREATE != 0 then AlreadyExists
    else Added(st.wdByInode[inode])
  }

  function AddWatch(s: System, id: Instance, inode: Inode, mask: bv32): System
    requires id in s.live
  {
    var st := s.live[id];
    if inode !in st.wdByInode then
      s.(live := s.live[id := NewWatch(st, inode, mask)],
         registry := RegistryAdd(s.registry, inode, Entry(id, NextWd(st))))
    else
      match AddOutcomeOf(st, inode, mask)
      case Added(wd) =>
        var watch := st.watches[wd];
        s.(live := s.live[id := st.(watches := st.watches[wd := watch.(mask := NewMask(watch, mask))])])
      case _ => s
  }

  function Enqueue(st: State, wd: int, what: Happening): State {
    st.(queue := st.queue + [QueuedEvent(wd, what)])
  }

  function RmWatch(s: System, id: Instance, wd: int): System
    requires id in s.live
  {
    var st := s.live[id];
    if wd !in st.watches then s
    else
      var inode := st.watches[wd].inode;
      var without := st.(watches := st.watches - {wd}, wdByInode := st.wdByInode - {inode});
      s.(live := s.live[id := Enqueue(without, wd, Happening(IN_IGNORED, 0, None))],
         registry := RegistryRemove(s.registry, inode, Entry(id, wd)))
  }

  function RegistryRemoveAll(registry: Registry, id: Instance, removed: seq<Watch>): Registry {
    if removed == [] then registry
    else
      var n := |removed| - 1;
      RegistryRemove(RegistryRemoveAll(registry, id, removed[..n]), removed[n].inode, Entry(id, removed[n].wd))
  }

  /** `removed` lists the watches in some order. */
  ghost predicate Lists(removed: seq<Watch>, watches: map<int, Watch>) {
    && (forall k :: 0 <= k < |removed| ==> removed[k].wd in watches && watches[removed[k].wd] == removed[k])
    && (forall wd :: wd in watches ==> watches[wd] in removed)
  }

  function ReleaseAll(s: System, id: Instance, removed: seq<Watch>): System
    requires id in s.live
  {
    s.(live := s.live[id := s.live[id].(watches := map[], wdByInode := map[], queue := [])],
       registry := RegistryRemoveAll(s.registry, id, removed))
  }

  /** Whether a watch mask lets an event through. */
  predicate Wants(watchMask: bv32, mask: bv32) {
    || mask & (IN_IGNORED | IN_Q_OVERFLOW | IN_UNMOUNT) != 0
    || (watchMask & IN_ALL_EVENTS) & (mask & IN_ALL_EVENTS) != 0
  }

  function EnqueueFiltered(st: State, wd: int, what: Happening): State {
    if wd in st.watches && Wants(st.watches[wd].mask, what.mask) then Enqueue(st, wd, what) else st
  }

  function Deliver(live: map<Instance, State>, deliveries: seq<Entry>, what: Happening): (after: map<Instance, State>)
    requires forall e :: e in deliveries ==> e.owner in live
    ensures after.Keys == live.Keys
  {
    if deliveries == [] then live
    else
      var n := |deliveries| - 1;
      var before := Deliver(live, deliveries[..n], what);
      var e := deliveries[n];
      before[e.owner := EnqueueFiltered(before[e.owner], e.wd, what)]
  }

  lemma {:induction false} AliveMembers(entries: seq<Entry>, live: set<Instance>)
    ensures forall e :: e in Alive(entries, live) <==> e in entries && e.owner in live
  {
    if entries != [] {
      var n := |entries| - 1;
      AliveMembers(entries[..n], live);
      assert entries == entries[..n] + [entries[n]];
    }
  }

  function Dispatch(s: System, inode: Inode, what: Happening): System {
    var deliveries := Alive(EntriesOf(s.registry, inode), s.live.Keys);
    AliveMembers(EntriesOf(s.registry, inode), s.live.Keys);
    s.(live := Deliver(s.live, deliveries, what),
       registry := if inode in s.registry then SetEntries(s.registry, inode, deliveries) else s.registry)
  }

  /** A read took the first `k` events. */
  function Take(s: System, id: Instance, k: nat): System
    requires id in s.live && k <= |s.live[id].queue|
  {
    s.(live := s.live[id := s.live[id].(queue := s.live[id].queue[k..])])
  }

  // ----- The invariant -----

  ghost predicate Listed(registry: Registry, inode: Inode, e: Entry) {
    e in EntriesOf(registry, inode)
  }

  /** The two indexes of an instance are inverse. */
  ghost predicate Indexed(st: State) {
    && (forall wd :: wd in st.watches ==>
          && st.watches[wd].wd == wd
          && st.watches[wd].inode in st.wdByInode && st.wdByInode[st.watches[wd].inode] == wd)
    && (forall inode :: inode in st.wdByInode ==>
          && st.wdByInode[inode] in st.watches && st.watches[st.wdByInode[inode]].inode == inode)
  }

  /** Descriptors in use are below the next one, until the counter sticks at its end. */
  ghost predicate Numbered(st: State) {
    && 0 <= st.nextWd <= I32_MAX
    && (forall wd :: wd in st.watches ==> 1 <= wd && (wd < st.nextWd || wd == I32_MAX == st.nextWd))
  }

  ghost predicate HasWatch(st: State, inode: Inode, wd: int) {
    wd in st.watches && st.watches[wd].inode == inode
  }

  /** The registry lists an instance under an inode exactly for its watch there. */
  ghost predicate Registered(s: System, id: Instance)
    requires id in s.live
  {
    forall inode, wd :: Listed(s.registry, inode, Entry(id, wd)) <==> HasWatch(s.live[id], inode, wd)
  }

  ghost predicate NoRepeats(entries: seq<Entry>) {
    forall i, j :: 0 <= i < j < |entries| ==> entries[i] != entries[j]
  }

  ghost predicate Tidy(registry: Registry) {
    forall inode :: inode in registry ==> NoRepeats(registry[inode])
  }

  ghost predicate Inv(s: System) {
    && (forall id :: id in s.live ==> id < s.nextId && Indexed(s.live[id]) && Numbered(s.live[id]) && Registered(s, id))
    && (forall inode, e :: Listed(s.registry, inode, e) ==> e.owner < s.nextId)
    && Tidy(s.registry)
  }

  // ----- The registry keeps its entries apart -----

  lemma {:induction false} RetainMembers(entries: seq<Entry>, gone: Entry)
    ensures forall e :: e in Retain(entries, gone) <==> e in entries && e != gone
  {
    if entries != [] {
      var n := |entries| - 1;
      RetainMembers(entries[..n], gone);
      assert entries == entries[..n] + [entries[n]];
    }
  }

  lemma {:induction false} RetainNoRepeats(entries: seq<Entry>, gone: Entry)
    requires NoRepeats(entries)
    ensures NoRepeats(Retain(entries, gone))
  {
    if entries != [] {
      var n := |entries| - 1;
      RetainNoRepeats(entries[..n], gone);
      RetainMembers(entries[..n], gone);
      assert forall k :: 0 <= k < n ==> entries[..n][k] != entries[n];
      assert entries[n] !in Retain(entries[..n], gone);
    }
  }

  lemma {:induction false} AliveNoRepeats(entries: seq<Entry>, live: set<Instance>)
    requires NoRepeats(entries)
    ensures NoRepeats(Alive(entries, live))
  {
    if entries != [] {
      var n := |entries| - 1;
      AliveNoRepeats(entries[..n], live);
      AliveMembers(entries[..n], live);
      assert forall k :: 0 <= k < n ==> entries[..n][k] != entries[n];
      assert entries[n] !in Alive(entries[..n], live);
    }
  }

  lemma RemoveListed(registry: Registry, inode: Inode, gone: Entry)
    requires Tidy(registry)
    ensures Tidy(RegistryRemove(registry, inode, gone))
    ensures forall i, e :: Listed(RegistryRemove(registry, inode, gone), i, e)
                           <==> Listed(registry, i, e) && !(i == inode && e == gone)
  {
    if inode in registry {
      RetainMembers(registry[inode], gone);
      RetainNoRepeats(registry[inode], gone);
    }
  }

  lemma AddListed(registry: Registry, inode: Inode, entry: Entry)
    requires Tidy(registry)
    ensures Tidy(RegistryAdd(registry, inode, entry))
    ensures forall i, e :: Listed(RegistryAdd(registry, inode, entry), i, e)
                           <==> Listed(registry, i, e) || (i == inode && e == entry)
  {
  }

  lemma {:induction false} RemoveAllListed(registry: Registry, id: Instance, removed: seq<Watch>)
    requires Tidy(registry)
    ensures Tidy(RegistryRemoveAll(registry, id, removed))
    ensures forall i, e :: Listed(RegistryRemoveAll(registry, id, removed), i, e)
                           <==> Listed(registry, i, e)
                                && !(e.owner == id && exists w :: w in removed && w.inode == i && w.wd == e.wd)
  {
    if removed != [] {
      var n := |removed| - 1;
      RemoveAllListed(registry, id, removed[..n]);
      RemoveListed(RegistryRemoveAll(registry, id, removed[..n]), removed[n].inode, Entry(id, removed[n].wd));
      assert removed == removed[..n] + [removed[n]];
    }
  }

  lemma DispatchListed(s: System, inode: Inode, what: Happening)
    requires Tidy(s.registry)
    ensures Tidy(Dispatch(s, inode, what).registry)
    ensures forall i, e :: Listed(Dispatch(s, inode, what).registry, i, e)
                           <==> Listed(s.registry, i, e) && (i == inode ==> e.owner in s.live)
  {
    var entries := EntriesOf(s.registry, inode);
    AliveMembers(entries, s.live.Keys);
    if inode in s.registry {
      AliveNoRepeats(entries, s.live.Keys);
    }
  }

  // ----- Every operation keeps the invariant -----

  /** The next descriptor is one that a live watch already holds. */
  ghost predicate Exhausted(st: State) {
    st.nextWd == I32_MAX && I32_MAX in st.watches
  }

  lemma NewWatchIndexed(st: State, inode: Inode, mask: bv32)
    requires Indexed(st) && Numbered(st) && inode !in st.wdByInode && !Exhausted(st)
    ensures NextWd(st) !in st.watches && Indexed(NewWatch(st, inode, mask)) && Numbered(NewWatch(st, inode, mask))
    ensures forall i, w :: HasWatch(NewWatch(st, inode, mask), i, w)
                           <==> HasWatch(st, i, w) || (i == inode && w == NextWd(st))
  {
  }

  lemma NewWatchKeeps(s: System, id: Instance, inode: Inode, mask: bv32)
    requires Inv(s) && id in s.live && inode !in s.live[id].wdByInode && !Exhausted(s.live[id])
    ensures Inv(AddWatch(s, id, inode, mask))
  {
    var st, after := s.live[id], AddWatch(s, id, inode, mask);
    NewWatchIndexed(st, inode, mask);
    AddListed(s.registry, inode, Entry(id, NextWd(st)));
    forall other | other in after.live ensures Registered(after, other) {
      assert Registered(s, other);
      forall i, w
        ensures Listed(after.registry, i, Entry(other, w)) <==> HasWatch(after.live[other], i, w)
      {
        assert Listed(s.registry, i, Entry(other, w)) <==> HasWatch(s.live[other], i, w);
      }
    }
  }

  /**
   Adding a watch keeps the indexes inverse if and only if the descriptor it gets is free: the counter
   sticks at its end, and then hands out the same descriptor again.
   */
  lemma AddWatchKeepsIffNotExhausted(s: System, id: Instance, inode: Inode, mask: bv32)
    requires Inv(s) && id in s.live
    ensures Inv(AddWatch(s, id, inode, mask)) <==> inode in s.live[id].wdByInode || !Exhausted(s.live[id])
  {
    var st, after := s.live[id], AddWatch(s, id, inode, mask);
    if inode in st.wdByInode {
      RemaskKeeps(s, id, inode, mask);
    } else if !Exhausted(st) {
      NewWatchKeeps(s, id, inode, mask);
    } else {
      var earlier := st.watches[I32_MAX].inode;
      assert earlier in after.live[id].wdByInode && after.live[id].wdByInode[earlier] == I32_MAX;
      assert after.live[id].watches[I32_MAX].inode == inode != earlier;
      assert !Indexed(after.live[id]);
    }
  }

  lemma RemaskKeeps(s: System, id: Instance, inode: Inode, mask: bv32)
    requires Inv(s) && id in s.live && inode in s.live[id].wdByInode
    ensures Inv(AddWatch(s, id, inode, mask))
  {
    var st, after := s.live[id], AddWatch(s, id, inode, mask);
    forall other | other in after.live ensures Registered(after, other) {
      assert Registered(s, other);
      forall i, w ensures HasWatch(after.live[other], i, w) <==> HasWatch(s.live[other], i, w) {
      }
    }
  }

  lemma RmWatchKeeps(s: System, id: Instance, wd: int)
    requires Inv(s) && id in s.live
    ensures Inv(RmWatch(s, id, wd))
  {
    var st, after := s.live[id], RmWatch(s, id, wd);
    if wd in st.watches {
      var inode := st.watches[wd].inode;
      RemoveListed(s.registry, inode, Entry(id, wd));
      forall other | other in after.live ensures Registered(after, other) {
        assert Registered(s, other);
        forall i, w
          ensures Listed(after.registry, i, Entry(other, w)) <==> HasWatch(after.live[other], i, w)
        {
          assert Listed(s.registry, i, Entry(other, w)) <==> HasWatch(s.live[other], i, w);
        }
      }
    }
  }

  lemma ReleaseKeeps(s: System, id: Instance, removed: seq<Watch>)
    requires Inv(s) && id in s.live && Lists(removed, s.live[id].watches)
    ensures Inv(ReleaseAll(s, id, removed))
  {
    var after := ReleaseAll(s, id, removed);
    RemoveAllListed(s.registry, id, removed);
    forall other | other in after.live ensures Registered(after, other) {
      assert Registered(s, other);
      forall i, w
        ensures Listed(after.registry, i, Entry(other, w)) <==> HasWatch(after.live[other], i, w)
      {
        assert Listed(s.registry, i, Entry(other, w)) <==> HasWatch(s.live[other], i, w);
        if other == id && HasWatch(s.live[id], i, w) {
          assert s.live[id].watches[w] in removed;
        }
      }
    }
  }

  lemma CreateKeeps(s: System)
    requires Inv(s)
    ensures Inv(Create(s))
  {
    var after := Create(s);
    forall other | other in after.live ensures Registered(after, other) {
      if other != s.nextId {
        assert Registered(s, other);
      }
    }
  }

  lemma FreeKeeps(s: System, id: Instance)
    requires Inv(s)
    ensures Inv(Free(s, id))
  {
    var after := Free(s, id);
    forall other | other in after.live ensures Registered(after, other) {
      assert Registered(s, other);
    }
  }

  // ----- Delivery -----

  /** An instance's share of a dispatched event: once if its watch on the inode wants it, else nothing. */
  function Due(st: State, inode: Inode, what: Happening): seq<QueuedEvent> {
    if inode in st.wdByInode then
      var wd := st.wdByInode[inode];
      if wd in st.watches && Wants(st.watches[wd].mask, what.mask) then [QueuedEvent(wd, what)] else []
    else []
  }

  ghost predicate OncePerOwner(deliveries: seq<Entry>) {
    forall i, j :: 0 <= i < j < |deliveries| ==> deliveries[i].owner != deliveries[j].owner
  }

  lemma {:induction false} DeliverOnce(
    live: map<Instance, State>, deliveries: seq<Entry>, what: Happening, id: Instance)
    requires forall e :: e in deliveries ==> e.owner in live
    requires OncePerOwner(deliveries) && id in live
    ensures forall wd :: Entry(id, wd) in deliveries ==>
                           Deliver(live, deliveries, what)[id] == EnqueueFiltered(live[id], wd, what)
    ensures (forall e :: e in deliveries ==> e.owner != id) ==> Deliver(live, deliveries, what)[id] == live[id]
  {
    if deliveries != [] {
      var n := |deliveries| - 1;
      DeliverOnce(live, deliveries[..n], what, id);
      assert deliveries == deliveries[..n] + [deliveries[n]];
      if deliveries[n].owner == id {
        assert forall e :: e in deliveries[..n] ==> e.owner != id;
      }
    }
  }

  /** No instance is listed twice under an inode. */
  lemma ListedOnce(s: System, inode: Inode)
    requires Inv(s)
    ensures OncePerOwner(Alive(EntriesOf(s.registry, inode), s.live.Keys))
  {
    var entries := EntriesOf(s.registry, inode);
    var deliveries := Alive(entries, s.live.Keys);
    AliveMembers(entries, s.live.Keys);
    AliveNoRepeats(entries, s.live.Keys);
    forall i, j | 0 <= i < j < |deliveries| ensures deliveries[i].owner != deliveries[j].owner {
      var a, b := deliveries[i], deliveries[j];
      assert a in deliveries && b in deliveries && a != b;
      if a.owner == b.owner {
        assert Registered(s, a.owner);
        assert Listed(s.registry, inode, Entry(a.owner, a.wd)) && Listed(s.registry, inode, Entry(b.owner, b.wd));
      }
    }
  }

  /** A dispatched event is queued once in each live instance that wants it and in no other. */
  lemma DispatchIsExact(s: System, inode: Inode, what: Happening, id: Instance)
    requires Inv(s) && id in s.live
    ensures var after := Dispatch(s, inode, what);
            id in after.live
            && after.live[id] == s.live[id].(queue := s.live[id].queue + Due(s.live[id], inode, what))
  {
    var deliveries := Alive(EntriesOf(s.registry, inode), s.live.Keys);
    AliveMembers(EntriesOf(s.registry, inode), s.live.Keys);
    ListedOnce(s, inode);
    DeliverOnce(s.live, deliveries, what, id);
    WatchIsListed(s, inode, id);
    FilteredIsDue(s.live[id], inode, what);
    if inode in s.live[id].wdByInode {
      assert Entry(id, s.live[id].wdByInode[inode]) in deliveries;
    }
  }

  lemma FilteredIsDue(st: State, inode: Inode, what: Happening)
    ensures st.(queue := st.queue + Due(st, inode, what))
            == if inode in st.wdByInode then EnqueueFiltered(st, st.wdByInode[inode], what) else st
  {
    assert st.queue + [] == st.queue;
  }

  /** The deliveries for an inode name an instance exactly for its watch there. */
  lemma WatchIsListed(s: System, inode: Inode, id: Instance)
    requires Inv(s) && id in s.live
    ensures var deliveries, st := Alive(EntriesOf(s.registry, inode), s.live.Keys), s.live[id];
            && (inode in st.wdByInode ==> Entry(id, st.wdByInode[inode]) in deliveries)
            && (inode !in st.wdByInode ==> forall e :: e in deliveries ==> e.owner != id)
  {
    var st := s.live[id];
    AliveMembers(EntriesOf(s.registry, inode), s.live.Keys);
    assert Registered(s, id);
    if inode in st.wdByInode {
      assert HasWatch(st, inode, st.wdByInode[inode]);
    } else {
      forall wd: int ensures !Listed(s.registry, inode, Entry(id, wd)) {
        assert !HasWatch(st, inode, wd);
      }
    }
  }

  lemma DispatchKeeps(s: System, inode: Inode, what: Happening)
    requires Inv(s)
    ensures Inv(Dispatch(s, inode, what))
  {
    var after := Dispatch(s, inode, what);
    DispatchListed(s, inode, what);
    forall id | id in after.live ensures Indexed(after.live[id]) && Numbered(after.live[id]) && Registered(after, id) {
      DispatchIsExact(s, inode, what, id);
      assert Registered(s, id);
      forall i, w ensures HasWatch(after.live[id], i, w) <==> HasWatch(s.live[id], i, w) {
      }
    }
  }

  // ----- What callers get for the masks they pass -----

  /** Mask `asked` asks for the events it shares one of the low twelve bits with, and the three forced ones. */
  predicate Asked(asked: bv32, event: bv32) {
    asked & event & 0xfff != 0 || event & 0xe000 != 0
  }

  lemma StoredBits(mask: bv32, event: bv32)
    ensures (mask & INOTIFY_STORED_MASK & IN_ALL_EVENTS) & (event & IN_ALL_EVENTS) == mask & event & 0xfff
  {
  }

  lemma UnionBits(first: bv32, second: bv32, event: bv32)
    ensures (((first & INOTIFY_STORED_MASK) | (second & INOTIFY_STORED_MASK)) & IN_ALL_EVENTS) & (event & IN_ALL_EVENTS)
            == (first | second) & event & 0xfff
  {
  }

  lemma ForcedBits()
    ensures IN_IGNORED | IN_Q_OVERFLOW | IN_UNMOUNT == 0xe000
  {
  }

  lemma WantsAsked(mask: bv32, event: bv32)
    ensures Wants(mask & INOTIFY_STORED_MASK, event) <==> Asked(mask, event)
  {
    StoredBits(mask, event);
    ForcedBits();
  }

  lemma WantsEither(first: bv32, second: bv32, event: bv32)
    ensures Wants((first & INOTIFY_STORED_MASK) | (second & INOTIFY_STORED_MASK), event)
            <==> Asked(first | second, event)
  {
    UnionBits(first, second, event);
    ForcedBits();
  }

  lemma NewMaskIs(watch: Watch, first: bv32, second: bv32)
    requires watch.mask == first & INOTIFY_STORED_MASK
    ensures NewMask(watch, second)
            == if second & IN_MASK_ADD != 0 then (first & INOTIFY_STORED_MASK) | (second & INOTIFY_STORED_MASK)
               else second & INOTIFY_STORED_MASK
  {
  }

  /** One event for a watched inode: it is queued at the end exactly if `wanted`, once. */
  ghost predicate QueuedIff(s: System, id: Instance, inode: Inode, wd: int, what: Happening, before: seq<QueuedEvent>,
                            wanted: bool)
  {
    && id in Dispatch(s, inode, what).live
    && Dispatch(s, inode, what).live[id].queue == before + if wanted then [QueuedEvent(wd, what)] else []
  }

  lemma DeliveredTo(s: System, id: Instance, inode: Inode, wd: int, what: Happening, wanted: bool)
    requires Inv(s) && id in s.live && HasWatch(s.live[id], inode, wd)
    requires Wants(s.live[id].watches[wd].mask, what.mask) == wanted
    ensures QueuedIff(s, id, inode, wd, what, s.live[id].queue, wanted)
  {
    DispatchIsExact(s, inode, what, id);
  }

  lemma NewWatchQueues(s: System, id: Instance, inode: Inode, mask: bv32, what: Happening, wanted: bool)
    requires Inv(s) && id in s.live && inode !in s.live[id].wdByInode && !Exhausted(s.live[id])
    requires Wants(mask & INOTIFY_STORED_MASK, what.mask) == wanted
    ensures var s1, wd := AddWatch(s, id, inode, mask), NextWd(s.live[id]);
            && AddOutcomeOf(s.live[id], inode, mask) == Added(wd) && wd !in s.live[id].watches
            && QueuedIff(s1, id, inode, wd, what, s.live[id].queue, wanted)
  {
    NewWatchKeeps(s, id, inode, mask);
    var s1, wd := AddWatch(s, id, inode, mask), NextWd(s.live[id]);
    assert wd !in s.live[id].watches;
    DeliveredTo(s1, id, inode, wd, what, wanted);
  }

  /** After a new watch with `mask`, an event is queued once if and only if `mask` asks for it. */
  lemma NewWatchDelivers(s: System, id: Instance, inode: Inode, mask: bv32, what: Happening)
    requires Inv(s) && id in s.live && inode !in s.live[id].wdByInode && !Exhausted(s.live[id])
    ensures var s1, wd := AddWatch(s, id, inode, mask), if s.live[id].nextWd > 1 then s.live[id].nextWd else 1;
            && AddOutcomeOf(s.live[id], inode, mask) == Added(wd) && wd !in s.live[id].watches
            && QueuedIff(s1, id, inode, wd, what, s.live[id].queue, Asked(mask, what.mask))
  {
    WantsAsked(mask, what.mask);
    NewWatchQueues(s, id, inode, mask, what, Asked(mask, what.mask));
  }

  /** A further add with IN_MASK_CREATE is refused; any other keeps the descriptor and the queue. */
  lemma SecondAddStores(s: System, id: Instance, inode: Inode, second: bv32)
    requires Inv(s) && id in s.live && inode in s.live[id].wdByInode
    ensures var s', st := AddWatch(s, id, inode, second), s.live[id];
            var wd := st.wdByInode[inode];
            && Inv(s') && id in s'.live && wd in st.watches
            && (if second & 0x1000_0000 != 0 then AddOutcomeOf(st, inode, second) == AlreadyExists && s' == s
                else && AddOutcomeOf(st, inode, second) == Added(wd) && HasWatch(s'.live[id], inode, wd)
                     && s'.live[id].queue == st.queue
                     && s'.live[id].watches[wd].mask == NewMask(st.watches[wd], second))
  {
    RemaskKeeps(s, id, inode, second);
  }

  lemma SecondAddQueues(s: System, id: Instance, inode: Inode, wd: int, second: bv32, what: Happening, wanted: bool)
    requires Inv(s) && id in s.live && HasWatch(s.live[id], inode, wd) && second & 0x1000_0000 == 0
    requires Wants(NewMask(s.live[id].watches[wd], second), what.mask) == wanted
    ensures AddOutcomeOf(s.live[id], inode, second) == Added(wd)
    ensures QueuedIff(AddWatch(s, id, inode, second), id, inode, wd, what, s.live[id].queue, wanted)
  {
    SecondAddStores(s, id, inode, second);
    DeliveredTo(AddWatch(s, id, inode, second), id, inode, wd, what, wanted);
  }

  /**
   A further add for the same inode keeps the descriptor; events then follow the new mask alone, or the union of both
   if IN_MASK_ADD was given.
   */
  lemma SecondAddDelivers(s: System, id: Instance, inode: Inode, wd: int, first: bv32, second: bv32, what: Happening)
    requires Inv(s) && id in s.live && HasWatch(s.live[id], inode, wd) && second & 0x1000_0000 == 0
    requires s.live[id].watches[wd].mask == first & 0x8400_0fff
    ensures AddOutcomeOf(s.live[id], inode, second) == Added(wd)
    ensures var asked := if second & 0x2000_0000 != 0 then first | second else second;
            QueuedIff(AddWatch(s, id, inode, second), id, inode, wd, what, s.live[id].queue, Asked(asked, what.mask))
  {
    NewMaskIs(s.live[id].watches[wd], first, second);
    if second & IN_MASK_ADD != 0 {
      WantsEither(first, second, what.mask);
      SecondAddQueues(s, id, inode, wd, second, what, Asked(first | second, what.mask));
    } else {
      WantsAsked(second, what.mask);
      SecondAddQueues(s, id, inode, wd, second, what, Asked(second, what.mask));
    }
  }

  /** A removed watch leaves one last event; its inode and descriptor are gone, all else stays. */
  lemma RemovalIsTold(s: System, id: Instance, wd: int)
    requires Inv(s) && id in s.live && wd in s.live[id].watches
    ensures var st, st' := s.live[id], RmWatch(s, id, wd).live[id];
            && st'.queue == st.queue + [QueuedEvent(wd, Happening(0x8000, 0, None))]
            && st'.watches == st.watches - {wd} && st.watches[wd].inode !in st'.wdByInode
            && (forall i :: i != st.watches[wd].inode ==> (i in st'.wdByInode <==> i in st.wdByInode))
  {
  }

  /** After a release the instance has no watch and no event, and the registry does not list it. */
  lemma ReleaseClears(s: System, id: Instance, removed: seq<Watch>)
    requires Inv(s) && id in s.live && Lists(removed, s.live[id].watches)
    ensures var s' := ReleaseAll(s, id, removed);
            && id in s'.live && s'.live[id].watches == map[] && s'.live[id].wdByInode == map[]
            && s'.live[id].queue == []
            && (forall inode, wd :: !Listed(s'.registry, inode, Entry(id, wd)))
  {
    ReleaseKeeps(s, id, removed);
    assert Registered(ReleaseAll(s, id, removed), id);
  }

  // ----- Runs -----

  datatype Step =
    | DoCreate
    | DoFree(id: Instance)
    | DoAdd(id: Instance, inode: Inode, mask: bv32)
    | DoRemove(id: Instance, wd: int)
    | DoRelease(id: Instance, removed: seq<Watch>)
    | DoDispatch(inode: Inode, what: Happening)
    | DoTake(id: Instance, k: nat)

  ghost predicate Enabled(s: System, step: Step) {
    match step
    case DoCreate => true
    case DoFree(id) => id in s.live
    case DoAdd(id, inode, mask) => id in s.live && (inode in s.live[id].wdByInode || !Exhausted(s.live[id]))
    case DoRemove(id, wd) => id in s.live
    case DoRelease(id, removed) => id in s.live && Lists(removed, s.live[id].watches)
    case DoDispatch(inode, what) => true
    case DoTake(id, k) => id in s.live && k <= |s.live[id].queue|
  }

  ghost function Apply(s: System, step: Step): System
    requires Enabled(s, step)
  {
    match step
    case DoCreate => Create(s)
    case DoFree(id) => Free(s, id)
    case DoAdd(id, inode, mask) => AddWatch(s, id, inode, mask)
    case DoRemove(id, wd) => RmWatch(s, id, wd)
    case DoRelease(id, removed) => ReleaseAll(s, id, removed)
    case DoDispatch(inode, what) => Dispatch(s, inode, what)
    case DoTake(id, k) => Take(s, id, k)
  }

  ghost predicate IsRun(states: seq<System>, steps: seq<Step>) {
    && |states| == |steps| + 1 && states[0] == Empty()
    && (forall i :: 0 <= i < |steps| ==> Enabled(states[i], steps[i]) && states[i + 1] == Apply(states[i], steps[i]))
  }

  lemma TakeKeeps(s: System, id: Instance, k: nat)
    requires Inv(s) && id in s.live && k <= |s.live[id].queue|
    ensures Inv(Take(s, id, k))
  {
    var after := Take(s, id, k);
    forall other | other in after.live ensures Registered(after, other) {
      assert Registered(s, other);
      forall i, w ensures HasWatch(after.live[other], i, w) <==> HasWatch(s.live[other], i, w) {
      }
    }
  }

  lemma StepKeeps(s: System, step: Step)
    requires Inv(s) && Enabled(s, step)
    ensures Inv(Apply(s, step))
  {
    match step
    case DoCreate => CreateKeeps(s);
    case DoFree(id) => FreeKeeps(s, id);
    case DoAdd(id, inode, mask) => AddWatchKeepsIffNotExhausted(s, id, inode, mask);
    case DoRemove(id, wd) => RmWatchKeeps(s, id, wd);
    case DoRelease(id, removed) => ReleaseKeeps(s, id, removed);
    case DoDispatch(inode, what) => DispatchKeeps(s, inode, what);
    case DoTake(id, k) => TakeKeeps(s, id, k);
  }

  lemma {:induction false} EveryRunIndexes(states: seq<System>, steps: seq<Step>, i: nat)
    requires IsRun(states, steps) && i < |states|
    ensures Inv(states[i])
  {
    if i > 0 {
      EveryRunIndexes(states, steps, i - 1);
      StepKeeps(states[i - 1], steps[i - 1]);
    }
  }

  /** In every run, an event dispatched at any point reaches each live instance exactly as its watch asks. */
  lemma EveryRunDelivers(states: seq<System>, steps: seq<Step>, i: nat, id: Instance)
    requires IsRun(states, steps) && i < |steps| && steps[i].DoDispatch? && id in states[i].live
    ensures id in states[i + 1].live
    ensures states[i + 1].live[id].queue
            == states[i].live[id].queue + Due(states[i].live[id], steps[i].inode, steps[i].what)
  {
    EveryRunIndexes(states, steps, i);
    DispatchIsExact(states[i], steps[i].inode, steps[i].what, id);
  }

  lemma CounterStep(s: System, step: Step, id: Instance)
    requires Inv(s) && Enabled(s, step) && id in Apply(s, step).live
    ensures Apply(s, step).live[id].nextWd
            <= if id in s.live then SaturatingIncrement(NextWd(s.live[id])) else 0
  {
    if step.DoDispatch? {
      assert id in s.live;
      DispatchIsExact(s, step.inode, step.what, id);
    }
  }

  /** A descriptor counter moves one number at a time. */
  lemma {:induction false} CounterIsSlow(states: seq<System>, steps: seq<Step>, i: nat, id: Instance)
    requires IsRun(states, steps) && i < |states| && id in states[i].live
    ensures 0 < i && states[i].live[id].nextWd <= i + 1
  {
    if i > 0 {
      EveryRunIndexes(states, steps, i - 1);
      CounterStep(states[i - 1], steps[i - 1], id);
      if id in states[i - 1].live {
        CounterIsSlow(states, steps, i - 1, id);
      }
    }
  }

  /** Hence no descriptor is handed out twice before the counter's range is used up. */
  lemma LongRunsBeforeExhaustion(states: seq<System>, steps: seq<Step>, i: nat, id: Instance)
    requires IsRun(states, steps) && i < |states| && id in states[i].live && i + 1 < I32_MAX
    ensures !Exhausted(states[i].live[id])
  {
    CounterIsSlow(states, steps, i, id);
  }

  // ----- The operations in place -----

  class Subsystem {
    var live: map<Instance, State>
    var registry: Registry
    var nextId: nat

    function Current(): System
      reads this
    {
      System(live, registry, nextId)
    }

    constructor ()
      ensures Current() == Empty() && Inv(Current())
    {
      live, registry, nextId := map[], map[], 1;
    }

    /** `sys_inotify_init1`, the instance only. */
    method NewInstance() returns (id: Instance)
      requires Inv(Current())
      modifies this
      ensures Inv(Current()) && Current() == Create(old(Current())) && id == old(nextId)
    {
      CreateKeeps(Current());
      id := nextId;
      nextId := nextId + 1;
      live := live[id := State(0, map[], map[], [])];
    }

    method RegistryAddWatch(inode: Inode, id: Instance, wd: int)
      modifies this`registry
      ensures registry == RegistryAdd(old(registry), inode, Entry(id, wd))
    {
      var entries := if inode in registry then registry[inode] else [];
      var k, found := 0, false;
      while k < |entries| && !found
        invariant 0 <= k <= |entries|
        invariant found <==> Entry(id, wd) in entries[..k]
      {
        found := entries[k].owner == id && entries[k].wd == wd;
        k := k + 1;
      }
      assert !found ==> entries[..k] == entries;
      registry := registry[inode := if found then entries else entries + [Entry(id, wd)]];
    }

    method RegistryRemoveWatch(inode: Inode, id: Instance, wd: int)
      modifies this`registry
      ensures registry == RegistryRemove(old(registry), inode, Entry(id, wd))
    {
      if inode in registry {
        var entries := registry[inode];
        var kept := [];
        for k := 0 to |entries|
          invariant kept == Retain(entries[..k], Entry(id, wd))
        {
          assert entries[..k + 1][..k] == entries[..k];
          if !(entries[k].owner == id && entries[k].wd == wd) {
            kept := kept + [entries[k]];
          }
        }
        assert entries[..|entries|] == entries;
        registry := if kept == [] then registry - {inode} else registry[inode := kept];
      }
    }

    /** `InotifyInner::add_watch` */
    method Add(id: Instance, inode: Inode, mask: bv32) returns (r: AddOutcome)
      requires Inv(Current()) && id in live
      modifies this
      ensures Current() == AddWatch(old(Current()), id, inode, mask)
      ensures r == AddOutcomeOf(old(live)[id], inode, mask)
      ensures Inv(Current()) <==> inode in old(live)[id].wdByInode || !Exhausted(old(live)[id])
    {
      AddWatchKeepsIffNotExhausted(Current(), id, inode, mask);
      r := PutWatch(id, inode, mask);
    }

    /** The watch of an inode is changed, or a new one put into both indexes and the registry. */
    method PutWatch(id: Instance, inode: Inode, mask: bv32) returns (r: AddOutcome)
      requires id in live
      modifies this
      ensures Current() == AddWatch(old(Current()), id, inode, mask)
      ensures r == AddOutcomeOf(old(live)[id], inode, mask)
    {
      var st := live[id];
      var requested := mask & INOTIFY_STORED_MASK;
      if inode in st.wdByInode {
        var wd := st.wdByInode[inode];
        if wd !in st.watches { return InvalidValue; }
        if mask & IN_MASK_CREATE != 0 { return AlreadyExists; }
        var watch := st.watches[wd];
        var combined := if mask & IN_MASK_ADD != 0 then watch.mask | requested else requested;
        live := live[id := st.(watches := st.watches[wd := watch.(mask := combined)])];
        return Added(wd);
      }
      var wd := if st.nextWd > 1 then st.nextWd else 1;
      live := live[id := st.(nextWd := SaturatingIncrement(wd),
                             watches := st.watches[wd := Watch(wd, inode, requested)],
                             wdByInode := st.wdByInode[inode := wd])];
      RegistryAddWatch(inode, id, wd);
      return Added(wd);
    }

    /** `InotifyInner::rm_watch` */
    method Remove(id: Instance, wd: int) returns (ok: bool)
      requires Inv(Current()) && id in live
      modifies this
      ensures Inv(Current()) && Current() == RmWatch(old(Current()), id, wd)
      ensures ok <==> wd in old(live)[id].watches
    {
      RmWatchKeeps(Current(), id, wd);
      ok := TakeWatch(id, wd);
    }

    /** The watch leaves both indexes and the registry, then IN_IGNORED is queued. */
    method TakeWatch(id: Instance, wd: int) returns (ok: bool)
      requires id in live
      modifies this
      ensures Current() == RmWatch(old(Current()), id, wd)
      ensures ok <==> wd in old(live)[id].watches
    {
      var st := live[id];
      if wd !in st.watches { return false; }
      var inode := st.watches[wd].inode;
      live := live[id := st.(watches := st.watches - {wd}, wdByInode := st.wdByInode - {inode})];
      RegistryRemoveWatch(inode, id, wd);
      live := live[id := Enqueue(live[id], wd, Happening(IN_IGNORED, 0, None))];
      return true;
    }

    /** `InotifyInner::release_all_watches` */
    method Release(id: Instance) returns (removed: seq<Watch>)
      requires Inv(Current()) && id in live
      modifies this
      ensures Lists(removed, old(live)[id].watches)
      ensures Inv(Current()) && Current() == ReleaseAll(old(Current()), id, removed)
    {
      removed := Values(live[id].watches);
      ReleaseKeeps(Current(), id, removed);
      live := live[id := live[id].(watches := map[], wdByInode := map[], queue := [])];
      for k := 0 to |removed|
        invariant live == old(live)[id := old(live)[id].(watches := map[], wdByInode := map[], queue := [])]
        invariant registry == RegistryRemoveAll(old(registry), id, removed[..k]) && nextId == old(nextId)
      {
        assert removed[..k + 1][..k] == removed[..k];
        RegistryRemoveWatch(removed[k].inode, id, removed[k].wd);
      }
      assert removed[..|removed|] == removed;
    }

    /** `dispatch_event` */
    method DispatchEvent(inode: Inode, what: Happening)
      requires Inv(Current())
      modifies this
      ensures Inv(Current()) && Current() == Dispatch(old(Current()), inode, what)
    {
      DispatchKeeps(Current(), inode, what);
      DeliverAll(inode, what);
    }

    /** The entries whose instance still exists, in order. */
    method LiveEntries(entries: seq<Entry>) returns (kept: seq<Entry>)
      ensures kept == Alive(entries, live.Keys)
    {
      kept := [];
      for k := 0 to |entries|
        invariant kept == Alive(entries[..k], live.Keys)
      {
        assert entries[..k + 1][..k] == entries[..k];
        if entries[k].owner in live {
          kept := kept + [entries[k]];
        }
      }
      assert entries[..|entries|] == entries;
    }

    /** Collects the live entries and queues the event for each. */
    method DeliverAll(inode: Inode, what: Happening)
      modifies this
      ensures Current() == Dispatch(old(Current()), inode, what)
    {
      var deliveries := [];
      if inode in registry {
        deliveries := LiveEntries(registry[inode]);
        registry := if deliveries == [] then registry - {inode} else registry[inode := deliveries];
      }
      AliveMembers(EntriesOf(old(registry), inode), old(live).Keys);
      QueueEach(deliveries, what);
    }

    method QueueEach(deliveries: seq<Entry>, what: Happening)
      requires forall e :: e in deliveries ==> e.owner in live
      modifies this`live
      ensures live == Deliver(old(live), deliveries, what)
    {
      for k := 0 to |deliveries|
        invariant live == Deliver(old(live), deliveries[..k], what)
      {
        assert deliveries[..k + 1][..k] == deliveries[..k];
        var e := deliveries[k];
        live := live[e.owner := EnqueueFiltered(live[e.owner], e.wd, what)];
      }
      assert deliveries[..|deliveries|] == deliveries;
    }
  }

  /** The watches of an instance, in some order. */
  method Values(watches: map<int, Watch>) returns (values: seq<Watch>)
    requires forall wd :: wd in watches ==> watches[wd].wd == wd
    ensures Lists(values, watches)
  {
    values := [];
    var left := watches.Keys;
    while left != {}
      invariant left <= watches.Keys
      invariant forall k :: 0 <= k < |values| ==> values[k].wd in watches && watches[values[k].wd] == values[k]
      invariant forall wd :: wd in watches.Keys - left ==> watches[wd] in values
      decreases left
    {
      assert exists wd: int :: wd in left by { assert !(forall wd: int :: wd !in left) || left == {}; }
      var wd :| wd in left;
      values := values + [watches[wd]];
      left := left - {wd};
    }
  }
}
