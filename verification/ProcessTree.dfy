/** The process tree: clone, exit with reparenting to init, and parent notification, over every run. */
module ProcessTree {

  import opened PageFrames

  const CLONE_VM: bv32 := 0x100
  const CLONE_SIGHAND: bv32 := 0x800
  const CLONE_PARENT: bv32 := 0x8000
  const CLONE_THREAD: bv32 := 0x10000

  type Tid = nat

  const INIT: Tid := 1

  datatype ProcessState = Running | Exiting

  datatype Process = Process(parent: Option<Tid>, children: set<Tid>, state: ProcessState, tasks: set<Tid>)

  /** The processes that something still owns, the next id, and the child updates sent, as (parent, child). */
  datatype Tree = Tree(processes: map<Tid, Process>, nextTid: Tid, updates: seq<(Tid, Tid)>)

  function Boot(): Tree {
    Tree(map[INIT := Process(None, {}, Running, {INIT})], 2, [])
  }

  // ----- Clone -----

  predicate Contains(flags: bv32, wanted: bv32) {
    flags & wanted == wanted
  }

  /** A new thread is refused unless the flags contain the conjunction of two different bits. */
  predicate ThreadRefused(flags: bv32) {
    Contains(flags, CLONE_THREAD) && !Contains(flags, CLONE_SIGHAND & CLONE_VM)
  }

  /** That conjunction is empty, so no flags are ever refused, whatever bits are missing. */
  lemma ThreadGuardNeverRefuses(flags: bv32)
    ensures !ThreadRefused(flags)
  {
    assert CLONE_SIGHAND & CLONE_VM == 0;
  }

  datatype CloneOutcome = Cloned(tid: Tid) | InvalidValue

  /** A process's parent, if the link still leads to a process. */
  function ParentOf(t: Tree, p: Tid): (parent: Option<Tid>)
    requires p in t.processes
    ensures parent.Some? ==> parent.value in t.processes
  {
    var link := t.processes[p].parent;
    if link.Some? && link.value in t.processes then link else None
  }

  /** The process that a new process hangs under. */
  function CloneParent(t: Tree, caller: Tid, flags: bv32): (parent: Option<Tid>)
    requires caller in t.processes
    ensures parent.Some? ==> parent.value in t.processes
  {
    if Contains(flags, CLONE_PARENT) then ParentOf(t, caller) else Some(caller)
  }

  function NewChild(t: Tree, parent: Tid): Tree
    requires parent in t.processes
  {
    var tid := t.nextTid;
    var grown := t.processes[tid := Process(Some(parent), {}, Running, {tid})];
    t.(processes := grown[parent := grown[parent].(children := grown[parent].children + {tid})], nextTid := tid + 1)
  }

  function CloneOutcomeOf(t: Tree, caller: Tid, flags: bv32): CloneOutcome
    requires caller in t.processes
  {
    if ThreadRefused(flags) then InvalidValue
    else if !Contains(flags, CLONE_THREAD) && CloneParent(t, caller, flags).None? then InvalidValue
    else Cloned(t.nextTid)
  }

  /** The id is spent before the flags are looked at. */
  function Clone(t: Tree, caller: Tid, flags: bv32): Tree
    requires caller in t.processes
  {
    var p := t.processes[caller];
    if CloneOutcomeOf(t, caller, flags).InvalidValue? then t.(nextTid := t.nextTid + 1)
    else if Contains(flags, CLONE_THREAD) then
      t.(processes := t.processes[caller := p.(tasks := p.tasks + {t.nextTid})], nextTid := t.nextTid + 1)
    else NewChild(t, CloneParent(t, caller, flags).value)
  }

  // ----- Exit -----

  /** Children given to init. */
  function Adopted(processes: map<Tid, Process>, children: set<Tid>): map<Tid, Process>
    requires INIT in processes
  {
    map q | q in processes ::
      if q == INIT then processes[q].(children := processes[q].children + children)
      else if q in children then processes[q].(parent := Some(INIT))
      else processes[q]
  }

  /** Marks the process, gives its children to init, leaves the parent's children and tells the parent. */
  function TearDown(t: Tree, p: Tid): Tree
    requires INIT in t.processes && p in t.processes && ParentOf(t, p).Some?
  {
    var parent := ParentOf(t, p).value;
    var marked := t.processes[p := t.processes[p].(children := {}, state := Exiting)];
    var adopted := Adopted(marked, t.processes[p].children);
    t.(processes := adopted[parent := adopted[parent].(children := adopted[parent].children - {p})],
       updates := t.updates + [(parent, p)])
  }

  /** `exit_group` panics for init, without a parent to tell, or without init to adopt. */
  predicate Panics(t: Tree, p: Tid)
    requires p in t.processes
  {
    p == INIT || ParentOf(t, p).None? || INIT !in t.processes
  }

  /** A thread of `p` calls `exit_group`; only the first one tears the process down. */
  function ExitGroup(t: Tree, p: Tid): Tree
    requires p in t.processes && !Panics(t, p)
  {
    if t.processes[p].state != Running then t else TearDown(t, p)
  }

  /** A thread ends; the last one of a running process goes through `exit_group` instead. */
  function EndThread(t: Tree, p: Tid, tid: Tid): Tree
    requires p in t.processes
  {
    t.(processes := t.processes[p := t.processes[p].(tasks := t.processes[p].tasks - {tid})])
  }

  /** The last owner of a process is gone; links to it are left dangling. */
  function Free(t: Tree, p: Tid): Tree {
    t.(processes := t.processes - {p})
  }

  // ----- The invariant -----

  ghost predicate Live(t: Tree, p: Tid) {
    p in t.processes && t.processes[p].state == Running
  }

  ghost predicate IsParent(t: Tree, p: Tid, q: Tid) {
    Live(t, q) && t.processes[q].parent == Some(p)
  }

  /** A process's children are the live processes whose parent it is. */
  ghost predicate ChildrenMatch(t: Tree, p: Tid)
    requires p in t.processes
  {
    forall q :: q in t.processes[p].children <==> IsParent(t, p, q)
  }

  /** Only init has no parent, and parents come before their children. */
  ghost predicate WellPlaced(t: Tree, q: Tid)
    requires q in t.processes
  {
    && q < t.nextTid
    && (q == INIT <==> t.processes[q].parent.None?)
    && (q != INIT ==> t.processes[q].parent.value < q)
  }

  ghost predicate ToldOnce(t: Tree, q: Tid)
    requires q in t.processes
  {
    Updates(t.updates, q) == if t.processes[q].state == Exiting then 1 else 0
  }

  /** How many child updates were sent about `q`. */
  ghost function Updates(updates: seq<(Tid, Tid)>, q: Tid): nat {
    if updates == [] then 0
    else
      var n := |updates| - 1;
      Updates(updates[..n], q) + if updates[n].1 == q then 1 else 0
  }

  ghost predicate Inv(t: Tree) {
    && Live(t, INIT)
    && (forall p :: p in t.processes ==> ChildrenMatch(t, p) && WellPlaced(t, p) && ToldOnce(t, p))
    && (forall q: nat :: Updates(t.updates, q) <= if q < t.nextTid then 1 else 0)
  }

  /** The parent of a live process is live. */
  ghost predicate Attached(t: Tree) {
    forall q :: Live(t, q) && q != INIT && t.processes[q].parent.Some? ==> Live(t, t.processes[q].parent.value)
  }

  // ----- Every call keeps it -----

  lemma NewChildKeeps(t: Tree, parent: Tid)
    requires Inv(t) && parent in t.processes
    ensures Inv(NewChild(t, parent))
  {
    var after, tid := NewChild(t, parent), t.nextTid;
    assert WellPlaced(t, parent);
    forall p | p in after.processes ensures WellPlaced(after, p) && ToldOnce(after, p) {
      if p != tid {
        assert WellPlaced(t, p) && ToldOnce(t, p);
      }
    }
    forall p | p in after.processes ensures ChildrenMatch(after, p) {
      NewChildMatches(t, parent, p);
    }
  }

  lemma NewChildMatches(t: Tree, parent: Tid, p: Tid)
    requires Inv(t) && parent in t.processes && p in NewChild(t, parent).processes
    ensures ChildrenMatch(NewChild(t, parent), p)
  {
    var after, tid := NewChild(t, parent), t.nextTid;
    assert WellPlaced(t, parent);
    if p != tid {
      assert ChildrenMatch(t, p);
    }
    forall q ensures q in after.processes[p].children <==> IsParent(after, p, q) {
      if q in t.processes {
        assert WellPlaced(t, q);
      }
      if p != tid {
        assert q in t.processes[p].children <==> IsParent(t, p, q);
      }
    }
  }

  lemma CloneKeeps(t: Tree, caller: Tid, flags: bv32)
    requires Inv(t) && caller in t.processes
    ensures Inv(Clone(t, caller, flags))
  {
    assert WellPlaced(t, caller);
    var after := Clone(t, caller, flags);
    if !Contains(flags, CLONE_THREAD) && CloneParent(t, caller, flags).Some? && !ThreadRefused(flags) {
      NewChildKeeps(t, CloneParent(t, caller, flags).value);
    } else {
      forall p | p in after.processes ensures ChildrenMatch(after, p) && WellPlaced(after, p) && ToldOnce(after, p) {
        assert ChildrenMatch(t, p) && WellPlaced(t, p) && ToldOnce(t, p);
        forall q ensures IsParent(after, p, q) <==> IsParent(t, p, q) {
        }
      }
    }
  }

  lemma TearDownMatches(t: Tree, p: Tid, r: Tid)
    requires Inv(t) && Live(t, p) && !Panics(t, p) && r in t.processes
    ensures ChildrenMatch(TearDown(t, p), r)
  {
    var after := TearDown(t, p);
    assert ChildrenMatch(t, r) && ChildrenMatch(t, p) && ChildrenMatch(t, INIT);
    forall q ensures q in after.processes[r].children <==> IsParent(after, r, q) {
      if q in t.processes {
        assert WellPlaced(t, q);
      }
      assert q in t.processes[r].children <==> IsParent(t, r, q);
      assert q in t.processes[p].children <==> IsParent(t, p, q);
      assert q in t.processes[INIT].children <==> IsParent(t, INIT, q);
    }
  }

  lemma TearDownPlaces(t: Tree, p: Tid, q: Tid)
    requires Inv(t) && Live(t, p) && !Panics(t, p) && q in t.processes
    ensures WellPlaced(TearDown(t, p), q)
  {
    assert WellPlaced(t, q) && ChildrenMatch(t, p);
    assert q in t.processes[p].children <==> IsParent(t, p, q);
  }

  lemma UpdatesAppend(updates: seq<(Tid, Tid)>, parent: Tid, p: Tid, q: Tid)
    ensures Updates(updates + [(parent, p)], q) == Updates(updates, q) + if p == q then 1 else 0
  {
    assert (updates + [(parent, p)])[..|updates|] == updates;
  }

  lemma TearDownMarks(t: Tree, p: Tid, q: Tid)
    requires INIT in t.processes && p in t.processes && ParentOf(t, p).Some? && q in t.processes
    ensures var after := TearDown(t, p).processes;
            q in after && after[q].state == if q == p then Exiting else t.processes[q].state
  {
  }

  lemma TearDownTells(t: Tree, p: Tid, q: Tid)
    requires Inv(t) && Live(t, p) && !Panics(t, p)
    ensures Updates(TearDown(t, p).updates, q) == Updates(t.updates, q) + if p == q then 1 else 0
    ensures Updates(TearDown(t, p).updates, q) <= if q < t.nextTid then 1 else 0
  {
    UpdatesAppend(t.updates, ParentOf(t, p).value, p, q);
    assert ToldOnce(t, p) && WellPlaced(t, p);
  }

  lemma TearDownTellsOnce(t: Tree, p: Tid, q: Tid)
    requires Inv(t) && Live(t, p) && !Panics(t, p) && q in t.processes
    ensures q in TearDown(t, p).processes && ToldOnce(TearDown(t, p), q)
  {
    TearDownMarks(t, p, q);
    TearDownTells(t, p, q);
    assert ToldOnce(t, q);
  }

  /**
   A call of `exit_group` panics exactly for init and for a process whose parent has been freed. While every live
   process is attached, only late threads of processes torn down already are of that second kind; the parent's link
   is looked up before the state.
   */
  lemma PanicsExactlyWhen(t: Tree, p: Tid)
    requires Inv(t) && p in t.processes
    ensures Panics(t, p) <==> p == INIT || t.processes[p].parent.value !in t.processes
    ensures Attached(t) ==>
              (Panics(t, p) <==> p == INIT || (!Live(t, p) && t.processes[p].parent.value !in t.processes))
  {
    assert WellPlaced(t, p);
  }

  lemma ExitKeeps(t: Tree, p: Tid)
    requires Inv(t) && p in t.processes && !Panics(t, p)
    ensures Inv(ExitGroup(t, p))
  {
    assert WellPlaced(t, p);
    if Live(t, p) {
      var after := TearDown(t, p);
      forall q | q in after.processes ensures ChildrenMatch(after, q) && WellPlaced(after, q) && ToldOnce(after, q) {
        TearDownMatches(t, p, q);
        TearDownPlaces(t, p, q);
        TearDownTellsOnce(t, p, q);
      }
      forall q: nat ensures Updates(after.updates, q) <= if q < after.nextTid then 1 else 0 {
        TearDownTells(t, p, q);
      }
    }
  }

  lemma EndThreadKeeps(t: Tree, p: Tid, tid: Tid)
    requires Inv(t) && p in t.processes
    ensures Inv(EndThread(t, p, tid))
  {
    var after := EndThread(t, p, tid);
    forall r | r in after.processes ensures ChildrenMatch(after, r) && WellPlaced(after, r) && ToldOnce(after, r) {
      assert ChildrenMatch(t, r) && WellPlaced(t, r) && ToldOnce(t, r);
      forall q ensures IsParent(after, r, q) <==> IsParent(t, r, q) {
      }
    }
  }

  lemma FreeKeeps(t: Tree, p: Tid)
    requires Inv(t) && p in t.processes && !Live(t, p)
    ensures Inv(Free(t, p))
  {
    var after := Free(t, p);
    forall r | r in after.processes ensures ChildrenMatch(after, r) && WellPlaced(after, r) && ToldOnce(after, r) {
      assert ChildrenMatch(t, r) && WellPlaced(t, r) && ToldOnce(t, r);
      forall q ensures IsParent(after, r, q) <==> IsParent(t, r, q) {
      }
    }
  }

  // ----- What callers of clone and exit get -----

  lemma ContainsBit(flags: bv32)
    ensures Contains(flags, CLONE_PARENT) <==> flags & 0x8000 != 0
    ensures Contains(flags, CLONE_THREAD) <==> flags & 0x1_0000 != 0
  {
  }

  /** A thread joins the caller's process; nothing else changes. */
  lemma ThreadJoins(t: Tree, caller: Tid, flags: bv32)
    requires Inv(t) && caller in t.processes && flags & 0x1_0000 != 0
    ensures var after := Clone(t, caller, flags);
            && CloneOutcomeOf(t, caller, flags) == Cloned(t.nextTid) && after.updates == t.updates
            && after.nextTid == t.nextTid + 1 && after.processes.Keys == t.processes.Keys
            && after.processes[caller].tasks == t.processes[caller].tasks + {t.nextTid}
            && after.processes[caller].children == t.processes[caller].children
            && after.processes[caller].parent == t.processes[caller].parent
            && (forall q :: q in t.processes && q != caller ==> after.processes[q] == t.processes[q])
  {
    ContainsBit(flags);
    ThreadGuardNeverRefuses(flags);
  }

  /** The new process hangs under `q`, which gains that child; no other process changes. */
  ghost predicate HangsUnder(t: Tree, after: Tree, q: Tid) {
    var tid := t.nextTid;
    && after.processes.Keys == t.processes.Keys + {tid} && q in t.processes && tid !in t.processes
    && after.processes[tid] == Process(Some(q), {}, Running, {tid})
    && after.processes[q].children == t.processes[q].children + {tid}
    && after.processes[q].parent == t.processes[q].parent && after.processes[q].tasks == t.processes[q].tasks
    && after.processes[q].state == t.processes[q].state
    && (forall r :: r in t.processes && r != q ==> after.processes[r] == t.processes[r])
  }

  /**
   A new process hangs under its caller, or under the caller's parent if CLONE_PARENT is given; then it is refused
   exactly if the caller is init or its parent has been freed. The id is spent in any case.
   */
  lemma ProcessHangs(t: Tree, caller: Tid, flags: bv32)
    requires Inv(t) && caller in t.processes && flags & 0x1_0000 == 0
    ensures var after, sibling := Clone(t, caller, flags), flags & 0x8000 != 0;
            && after.nextTid == t.nextTid + 1 && after.updates == t.updates
            && (if sibling && (caller == INIT || t.processes[caller].parent.value !in t.processes)
                then CloneOutcomeOf(t, caller, flags) == InvalidValue && after.processes == t.processes
                else && CloneOutcomeOf(t, caller, flags) == Cloned(t.nextTid)
                     && HangsUnder(t, after, if sibling then t.processes[caller].parent.value else caller))
  {
    ContainsBit(flags);
    ThreadGuardNeverRefuses(flags);
    assert WellPlaced(t, caller);
    forall q | q in t.processes ensures q != t.nextTid {
      assert WellPlaced(t, q);
    }
  }

  /**
   After the first exit of a process its children are init's, its parent no longer lists it and is told once, and
   nothing else changes; a later exit of another of its threads changes nothing.
   */
  lemma ExitHandsOver(t: Tree, p: Tid)
    requires Inv(t) && p in t.processes && !Panics(t, p)
    ensures var after, was := ExitGroup(t, p), t.processes[p];
            if was.state == Exiting then after == t
            else
              && after.processes.Keys == t.processes.Keys && after.nextTid == t.nextTid
              && after.updates == t.updates + [(was.parent.value, p)]
              && after.processes[p] == Process(was.parent, {}, Exiting, was.tasks)
              && (forall q :: q in t.processes && q != p ==>
                                HandedOver(t.processes[q], after.processes[q], p, q, was.parent.value, was.children))
  {
    assert WellPlaced(t, p) && ChildrenMatch(t, p);
    forall q | q in t.processes[p].children ensures q != p && q != INIT {
      assert IsParent(t, p, q) && WellPlaced(t, q);
    }
  }

  /** What the exit of `p`, child of `parent` with the given `children`, does to another process `q`. */
  ghost predicate HandedOver(was: Process, now: Process, p: Tid, q: Tid, parent: Tid, children: set<Tid>) {
    && now.state == was.state && now.tasks == was.tasks
    && now.parent == (if q in children then Some(INIT) else was.parent)
    && now.children == (was.children + if q == INIT then children else {}) - if q == parent then {p} else {}
  }

  // ----- Runs -----

  datatype Step =
    | DoClone(p: Tid, tid: Tid, flags: bv32)  // thread `tid` of `p`, which may be torn down already
    | DoExit(p: Tid, tid: Tid)                // thread `tid` of `p` calls `exit_group`, first or late
    | DoEndThread(p: Tid, tid: Tid)
    | DoFree(p: Tid)

  ghost predicate Enabled(t: Tree, step: Step) {
    match step
    case DoClone(p, tid, flags) => p in t.processes && tid in t.processes[p].tasks
    case DoExit(p, tid) => p in t.processes && tid in t.processes[p].tasks && !Panics(t, p)
    case DoEndThread(p, tid) =>
      p in t.processes && tid in t.processes[p].tasks && (Live(t, p) ==> t.processes[p].tasks != {tid})
    case DoFree(p) => p in t.processes && !Live(t, p) && t.processes[p].tasks == {}
  }

  ghost function Apply(t: Tree, step: Step): Tree
    requires Enabled(t, step)
  {
    match step
    case DoClone(p, tid, flags) => Clone(t, p, flags)
    case DoExit(p, tid) => ExitGroup(t, p)
    case DoEndThread(p, tid) => EndThread(t, p, tid)
    case DoFree(p) => Free(t, p)
  }

  ghost predicate IsRun(states: seq<Tree>, steps: seq<Step>) {
    && |states| == |steps| + 1 && states[0] == Boot()
    && (forall i :: 0 <= i < |steps| ==> Enabled(states[i], steps[i]) && states[i + 1] == Apply(states[i], steps[i]))
  }

  lemma BootHolds()
    ensures Inv(Boot())
  {
    assert WellPlaced(Boot(), INIT);
  }

  lemma StepKeeps(t: Tree, step: Step)
    requires Inv(t) && Enabled(t, step)
    ensures Inv(Apply(t, step))
  {
    match step
    case DoClone(p, tid, flags) => CloneKeeps(t, p, flags);
    case DoExit(p, tid) => ExitKeeps(t, p);
    case DoEndThread(p, tid) => EndThreadKeeps(t, p, tid);
    case DoFree(p) => FreeKeeps(t, p);
  }

  /** In every run links and children agree, parents precede children, and updates are sent once per exit. */
  lemma {:induction false} EveryRunIsATree(states: seq<Tree>, steps: seq<Step>, i: nat)
    requires IsRun(states, steps) && i < |states|
    ensures Inv(states[i])
  {
    if i == 0 {
      BootHolds();
    } else {
      EveryRunIsATree(states, steps, i - 1);
      StepKeeps(states[i - 1], steps[i - 1]);
    }
  }

  // ----- When every live process has a live parent -----

  /** A clone that makes a thread, fails, or hangs the new process under a live one. */
  ghost predicate Rooted(t: Tree, step: Step)
    requires Enabled(t, step)
  {
    step.DoClone? ==>
      var parent := CloneParent(t, step.p, step.flags);
      Contains(step.flags, CLONE_THREAD) || parent.None? || Live(t, parent.value)
  }

  lemma TearDownAttached(t: Tree, p: Tid)
    requires Inv(t) && Attached(t) && Live(t, p) && !Panics(t, p)
    ensures Attached(TearDown(t, p))
  {
    var after := TearDown(t, p);
    assert ChildrenMatch(t, p);
    forall q | Live(after, q) && q != INIT && after.processes[q].parent.Some?
      ensures Live(after, after.processes[q].parent.value)
    {
      assert WellPlaced(t, q);
      assert q in t.processes[p].children <==> IsParent(t, p, q);
    }
  }

  lemma NewChildAttached(t: Tree, parent: Tid)
    requires Inv(t) && Attached(t) && parent in t.processes
    ensures Attached(NewChild(t, parent)) <==> Live(t, parent)
  {
    var after, tid := NewChild(t, parent), t.nextTid;
    assert WellPlaced(t, parent);
    assert Live(after, tid) && after.processes[tid].parent == Some(parent);
    forall q | Live(after, q) && q != tid ensures Live(t, q) && after.processes[q].parent == t.processes[q].parent {
    }
  }

  lemma CloneAttachedIffRooted(t: Tree, p: Tid, tid: Tid, flags: bv32)
    requires Inv(t) && Attached(t) && Enabled(t, DoClone(p, tid, flags))
    ensures Attached(Clone(t, p, flags)) <==> Rooted(t, DoClone(p, tid, flags))
  {
    ThreadGuardNeverRefuses(flags);
    var parent := CloneParent(t, p, flags);
    if !Contains(flags, CLONE_THREAD) && parent.Some? {
      NewChildAttached(t, parent.value);
    }
  }

  /** A step leaves every live process under a live one if and only if it is no clone under a torn-down process. */
  lemma AttachedIffRooted(t: Tree, step: Step)
    requires Inv(t) && Attached(t) && Enabled(t, step)
    ensures Attached(Apply(t, step)) <==> Rooted(t, step)
  {
    match step
    case DoClone(p, tid, flags) => CloneAttachedIffRooted(t, p, tid, flags);
    case DoExit(p, tid) => if Live(t, p) { TearDownAttached(t, p); }
    case DoEndThread(p, tid) =>
    case DoFree(p) =>
  }

  ghost predicate AlwaysAttached(states: seq<Tree>, n: nat)
    requires n < |states|
  {
    Attached(states[n]) && (n > 0 ==> AlwaysAttached(states, n - 1))
  }

  ghost predicate AlwaysRooted(states: seq<Tree>, steps: seq<Step>, n: nat)
    requires IsRun(states, steps) && n < |states|
  {
    n > 0 ==> Rooted(states[n - 1], steps[n - 1]) && AlwaysRooted(states, steps, n - 1)
  }

  /** Throughout a run every live process is under a live one if and only if no clone was made under a torn-down one. */
  lemma {:induction false} RunAttachedIffRooted(states: seq<Tree>, steps: seq<Step>, n: nat)
    requires IsRun(states, steps) && n < |states|
    ensures AlwaysAttached(states, n) <==> AlwaysRooted(states, steps, n)
  {
    if n > 0 {
      RunAttachedIffRooted(states, steps, n - 1);
      EveryRunIsATree(states, steps, n - 1);
      if Attached(states[n - 1]) {
        AttachedIffRooted(states[n - 1], steps[n - 1]);
      }
    }
  }

  /** As long as no clone was made under a torn-down process, `exit_group` panics for init and no other live process. */
  lemma OnlyInitPanics(states: seq<Tree>, steps: seq<Step>, i: nat, p: Tid)
    requires IsRun(states, steps) && i < |states| && AlwaysRooted(states, steps, i) && Live(states[i], p)
    ensures Panics(states[i], p) <==> p == INIT
  {
    EveryRunIsATree(states, steps, i);
    RunAttachedIffRooted(states, steps, i);
    PanicsExactlyWhen(states[i], p);
  }

  // ----- Runs that panic -----

  lemma SmallFlags()
    ensures !Contains(0, CLONE_THREAD) && !Contains(0, CLONE_PARENT) && !ThreadRefused(0)
    ensures Contains(CLONE_THREAD, CLONE_THREAD) && !ThreadRefused(CLONE_THREAD)
  {
  }

  /** Init, its child 2 and grandchild 3, which has two threads. */
  function Grandchild(): Tree {
    Tree(map[1 := Process(None, {2}, Running, {1}), 2 := Process(Some(1), {3}, Running, {2}),
             3 := Process(Some(2), {}, Running, {3, 4})], 5, [])
  }

  lemma ReachGrandchild() returns (states: seq<Tree>, steps: seq<Step>)
    ensures IsRun(states, steps) && |steps| == 3 && states[3] == Grandchild()
  {
    SmallFlags();
    var t0 := Boot();
    var t1 := Clone(t0, INIT, 0);
    assert t1.processes[1].children == {2};
    assert t1.processes == map[1 := Process(None, {2}, Running, {1}), 2 := Process(Some(1), {}, Running, {2})];
    var t2 := Clone(t1, 2, 0);
    assert t2.processes[2].children == {3};
    assert t2.processes == map[1 := Process(None, {2}, Running, {1}), 2 := Process(Some(1), {3}, Running, {2}),
                               3 := Process(Some(2), {}, Running, {3})];
    var t3 := Clone(t2, 3, CLONE_THREAD);
    assert t3.processes[3].tasks == {3, 4};
    assert t3.processes == Grandchild().processes;
    states, steps := [t0, t1, t2, t3], [DoClone(1, 1, 0), DoClone(2, 2, 0), DoClone(3, 3, CLONE_THREAD)];
  }

  /** The same after the grandchild's exit, with both its threads still there. */
  function GrandchildExited(): Tree {
    Tree(map[1 := Process(None, {2}, Running, {1}), 2 := Process(Some(1), {}, Running, {2}),
             3 := Process(Some(2), {}, Exiting, {3, 4})], 5, [(2, 3)])
  }

  lemma ReachGrandchildExited() returns (states: seq<Tree>, steps: seq<Step>)
    ensures IsRun(states, steps) && |steps| == 4 && states[4] == GrandchildExited()
  {
    states, steps := ReachGrandchild();
    var t4 := ExitGroup(Grandchild(), 3);
    assert t4.processes[1].children == {2} && t4.processes[2].children == {};
    assert t4.processes == GrandchildExited().processes;
    states, steps := states + [t4], steps + [DoExit(3, 3)];
  }

  /** A late exit panics: the parent exits and is freed too, then the grandchild's second thread exits. */
  lemma LateExitPanics() returns (states: seq<Tree>, steps: seq<Step>)
    ensures IsRun(states, steps)
    ensures var t := states[|states| - 1];
            3 in t.processes && 4 in t.processes[3].tasks && !Live(t, 3) && Panics(t, 3)
  {
    states, steps := ReachGrandchildExited();
    var t5 := ExitGroup(GrandchildExited(), 2);
    assert t5.processes[2] == Process(Some(1), {}, Exiting, {2});
    assert t5.processes[3] == Process(Some(2), {}, Exiting, {3, 4});
    var t6 := EndThread(t5, 2, 2);
    assert t6.processes[2].tasks == {};
    states := states + [t5, t6, Free(t6, 2)];
    steps := steps + [DoExit(2, 2), DoEndThread(2, 2), DoFree(2)];
  }

  /**
   A live process panics too: the grandchild's late thread clones, its threads end and it is freed; the new process
   is running, without a parent.
   */
  lemma LateCloneOrphans() returns (states: seq<Tree>, steps: seq<Step>)
    ensures IsRun(states, steps)
    ensures var t := states[|states| - 1]; Live(t, 5) && Panics(t, 5)
  {
    SmallFlags();
    states, steps := ReachGrandchildExited();
    var t5 := Clone(GrandchildExited(), 3, 0);
    assert t5.processes[5] == Process(Some(3), {}, Running, {5}) && t5.processes[3].tasks == {3, 4};
    var t6 := EndThread(t5, 3, 3);
    assert t6.processes[3].tasks == {4};
    var t7 := EndThread(t6, 3, 4);
    assert t7.processes[3].tasks == {};
    states := states + [t5, t6, t7, Free(t7, 3)];
    steps := steps + [DoClone(3, 4, 0), DoEndThread(3, 3), DoEndThread(3, 4), DoFree(3)];
  }

  // ----- Reaching init -----

  /** `chain` leads from `p` to init, each the parent of the one before, older and live. */
  ghost predicate LeadsToInit(t: Tree, p: Tid, chain: seq<Tid>) {
    && chain != [] && chain[0] == p && chain[|chain| - 1] == INIT
    && (forall k :: 0 <= k < |chain| ==> Live(t, chain[k]))
    && (forall k :: 0 < k < |chain| ==>
                      chain[k] < chain[k - 1] && t.processes[chain[k - 1]].parent == Some(chain[k]))
  }

  lemma {:induction false} AttachedReachesInit(t: Tree, p: Tid) returns (chain: seq<Tid>)
    requires Inv(t) && Attached(t) && Live(t, p)
    ensures LeadsToInit(t, p, chain)
    decreases p
  {
    assert WellPlaced(t, p);
    if p == INIT {
      chain := [p];
    } else {
      var rest := AttachedReachesInit(t, t.processes[p].parent.value);
      chain := [p] + rest;
    }
  }

  /** Every live process reaches init through live, ever older ancestors if and only if every one is attached. */
  lemma AllReachInitIffAttached(t: Tree)
    requires Inv(t)
    ensures Attached(t) <==> forall p :: Live(t, p) ==> exists chain :: LeadsToInit(t, p, chain)
  {
    if Attached(t) {
      forall p | Live(t, p) ensures exists chain :: LeadsToInit(t, p, chain) {
        var chain := AttachedReachesInit(t, p);
      }
    } else {
      var q :| Live(t, q) && q != INIT && t.processes[q].parent.Some? && !Live(t, t.processes[q].parent.value);
      forall chain ensures !LeadsToInit(t, q, chain) {
        if chain != [] && chain[0] == q && chain[|chain| - 1] == INIT {
          assert |chain| > 1;
          assert chain[1] == t.processes[q].parent.value || !LeadsToInit(t, q, chain);
        }
      }
    }
  }

  /** In every run without a clone under a torn-down process, every live process reaches init. */
  lemma ReachesInit(states: seq<Tree>, steps: seq<Step>, i: nat, p: Tid) returns (chain: seq<Tid>)
    requires IsRun(states, steps) && i < |states| && AlwaysRooted(states, steps, i) && Live(states[i], p)
    ensures LeadsToInit(states[i], p, chain)
  {
    EveryRunIsATree(states, steps, i);
    RunAttachedIffRooted(states, steps, i);
    chain := AttachedReachesInit(states[i], p);
  }

  /** `p` was torn down: not live, never to be created again, and reported once. */
  ghost predicate TornDown(t: Tree, p: Tid) {
    p < t.nextTid && !Live(t, p) && Updates(t.updates, p) == 1
  }

  lemma StaysDown(t: Tree, step: Step, p: Tid)
    requires Inv(t) && Enabled(t, step) && TornDown(t, p)
    ensures TornDown(Apply(t, step), p)
  {
    var after := Apply(t, step);
    if step.DoExit? && Live(t, step.p) {
      assert ToldOnce(t, step.p);
      assert after.updates[..|t.updates|] == t.updates;
    }
  }

  /** Whatever the threads do, a process's teardown never comes undone and its parent is told of it once. */
  lemma {:induction false} TornDownOnce(states: seq<Tree>, steps: seq<Step>, i: nat, j: nat, p: Tid)
    requires IsRun(states, steps) && i <= j < |states| && p in states[i].processes && !Live(states[i], p)
    ensures TornDown(states[j], p)
    decreases j
  {
    EveryRunIsATree(states, steps, i);
    assert ToldOnce(states[i], p) && WellPlaced(states[i], p);
    if i < j {
      TornDownOnce(states, steps, i, j - 1, p);
      EveryRunIsATree(states, steps, j - 1);
      StaysDown(states[j - 1], steps[j - 1], p);
    }
  }

  // ----- In place -----

  class ProcessTable {
    var processes: map<Tid, Process>
    var nextTid: Tid
    var updates: seq<(Tid, Tid)>

    function Current(): Tree
      reads this
    {
      Tree(processes, nextTid, updates)
    }

    constructor ()
      ensures Current() == Boot() && Inv(Current())
    {
      BootHolds();
      processes, nextTid, updates := map[INIT := Process(None, {}, Running, {INIT})], 2, [];
    }

    /** The tree's part of `sys_clone`. */
    method SysClone(caller: Tid, flags: bv32) returns (r: CloneOutcome)
      requires Inv(Current()) && caller in processes
      modifies this
      ensures Inv(Current())
      ensures Current() == Clone(old(Current()), caller, flags) && r == CloneOutcomeOf(old(Current()), caller, flags)
    {
      CloneKeeps(Current(), caller, flags);
      var tid := nextTid;
      nextTid := nextTid + 1;
      if flags & CLONE_THREAD == CLONE_THREAD {
        if flags & (CLONE_SIGHAND & CLONE_VM) != CLONE_SIGHAND & CLONE_VM { return InvalidValue; }
        processes := processes[caller := processes[caller].(tasks := processes[caller].tasks + {tid})];
        return Cloned(tid);
      }
      var parent := caller;
      if flags & CLONE_PARENT == CLONE_PARENT {
        var link := processes[caller].parent;
        if link.None? || link.value !in processes { return InvalidValue; }
        parent := link.value;
      }
      processes := processes[tid := Process(Some(parent), {}, Running, {tid})];
      processes := processes[parent := processes[parent].(children := processes[parent].children + {tid})];
      return Cloned(tid);
    }

    /** `do_exit_group` for a thread of process `p`. */
    method DoExitGroup(p: Tid)
      requires Inv(Current()) && p in processes && !Panics(Current(), p)
      modifies this
      ensures Inv(Current()) && Current() == ExitGroup(old(Current()), p)
    {
      ExitKeeps(Current(), p);
      ChildrenKnown(Current(), p);
      TearDownFirst(p);
    }

    /** Mark, reparent, leave, tell. */
    method TearDownFirst(p: Tid)
      requires p in processes && !Panics(Current(), p) && processes[p].children <= processes.Keys - {INIT}
      modifies this
      ensures Current() == ExitGroup(old(Current()), p)
    {
      var parent := processes[p].parent.value;
      if processes[p].state != Running { return; }
      processes := processes[p := processes[p].(state := Exiting)];
      var ours := processes[p].children;
      processes := processes[p := processes[p].(children := {})];
      ghost var marked := old(processes)[p := old(processes)[p].(children := {}, state := Exiting)];
      assert processes == marked && ours == old(processes)[p].children;
      Reparent(ours);
      processes := processes[parent := processes[parent].(children := processes[parent].children - {p})];
      updates := updates + [(parent, p)];
    }

    /** Gives children to init, one by one. */
    method Reparent(ours: set<Tid>)
      requires INIT in processes && INIT !in ours && ours <= processes.Keys
      modifies this`processes
      ensures processes == Adopted(old(processes), ours)
    {
      var left := ours;
      ghost var done: set<Tid> := {};
      AdoptNone(processes);
      while left != {}
        invariant left <= ours && done == ours - left
        invariant processes == Adopted(old(processes), done)
        decreases left
      {
        var child :| child in left;
        AdoptOne(old(processes), done, child);
        processes := processes[child := processes[child].(parent := Some(INIT))];
        processes := processes[INIT := processes[INIT].(children := processes[INIT].children + {child})];
        left, done := left - {child}, done + {child};
      }
      assert done == ours;
    }
  }

  /** What `TearDownFirst` relies on holds of every process. */
  lemma ChildrenKnown(t: Tree, p: Tid)
    requires Inv(t) && p in t.processes
    ensures t.processes[p].children <= t.processes.Keys - {INIT}
  {
    assert ChildrenMatch(t, p) && WellPlaced(t, INIT);
    forall q | q in t.processes[p].children ensures q in t.processes && q != INIT {
      assert IsParent(t, p, q);
    }
  }

  lemma AdoptNone(processes: map<Tid, Process>)
    requires INIT in processes
    ensures Adopted(processes, {}) == processes
  {
    assert processes[INIT].children + {} == processes[INIT].children;
  }

  lemma AdoptOne(processes: map<Tid, Process>, done: set<Tid>, child: Tid)
    requires INIT in processes && child in processes && child != INIT
    ensures var before := Adopted(processes, done);
            Adopted(processes, done + {child})
            == before[child := before[child].(parent := Some(INIT))]
                     [INIT := before[INIT].(children := before[INIT].children + {child})]
  {
    var base := processes[INIT].children;
    assert base + (done + {child}) == (base + done) + {child};
  }
}
