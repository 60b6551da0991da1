/** The asynchronous mutex: exclusion in every interleaving, and exactly when the lock is handed over. */
module AsyncMutexes {
  import opened PageFrames

  /** A task's dealings with the mutex; a task without any has no entry. */
  datatype Phase = Waiting(woken: bool) | Holding

  datatype Mutex = Mutex(locked: bool, waiters: seq<nat>, tasks: map<nat, Phase>)

  const Unlocked := Mutex(false, [], map[])

  datatype Step =
    | Poll(t: nat)
    | Release(t: nat)
    | Cancel(t: nat)  // a pending future is dropped; its waker stays queued

  predicate Enabled(m: Mutex, step: Step) {
    match step
    case Poll(t) => t in m.tasks ==> m.tasks[t].Waiting?
    case Release(t) => t in m.tasks && m.tasks[t].Holding?
    case Cancel(t) => t in m.tasks && m.tasks[t].Waiting?
  }

  /** A task's waker is queued at most once. */
  function Enqueue(waiters: seq<nat>, t: nat): seq<nat> {
    if t in waiters then waiters else waiters + [t]
  }

  function PollLock(m: Mutex, t: nat): Mutex {
    if !m.locked then Mutex(true, m.waiters, m.tasks[t := Holding])
    else m.(waiters := Enqueue(m.waiters, t), tasks := m.tasks[t := Waiting(false)])
  }

  function WakeTask(tasks: map<nat, Phase>, t: nat): map<nat, Phase> {
    if t in tasks && tasks[t].Waiting? then tasks[t := Waiting(true)] else tasks
  }

  function ReleaseLock(m: Mutex, t: nat): Mutex {
    if m.waiters == [] then Mutex(false, [], m.tasks - {t})
    else Mutex(false, m.waiters[1..], WakeTask(m.tasks - {t}, m.waiters[0]))
  }

  function Apply(m: Mutex, step: Step): Mutex
    requires Enabled(m, step)
  {
    match step
    case Poll(t) => PollLock(m, t)
    case Release(t) => ReleaseLock(m, t)
    case Cancel(t) => m.(tasks := m.tasks - {t})
  }

  predicate IsRun(states: seq<Mutex>, steps: seq<Step>) {
    && |states| == |steps| + 1
    && states[0] == Unlocked
    && forall i :: 0 <= i < |steps| ==> Enabled(states[i], steps[i]) && states[i + 1] == Apply(states[i], steps[i])
  }

  // ----- Exclusion -----

  predicate Holds(m: Mutex, t: nat) {
    t in m.tasks && m.tasks[t].Holding?
  }

  /** At most one guard exists, and it exists exactly while the mutex is locked. */
  ghost predicate Exclusive(m: Mutex) {
    && (forall t, u :: Holds(m, t) && Holds(m, u) ==> t == u)
    && (m.locked <==> exists t :: Holds(m, t))
  }

  lemma StepKeepsExclusion(m: Mutex, step: Step)
    requires Exclusive(m) && Enabled(m, step)
    ensures Exclusive(Apply(m, step))
  {
    var m' := Apply(m, step);
    match step
    case Poll(t) =>
      if !m.locked {
        assert Holds(m', t);
        assert forall u :: Holds(m', u) && u != t ==> Holds(m, u);
      }
      else {
        var h :| Holds(m, h);
        assert Holds(m', h);
        assert forall u :: Holds(m', u) ==> Holds(m, u);
      }
    case Release(t) =>
      assert Holds(m, t);
      assert forall u :: Holds(m', u) ==> Holds(m, u) && u != t;
    case Cancel(t) =>
      if m.locked {
        var h :| Holds(m, h);
        assert Holds(m', h);
      }
      assert forall u :: Holds(m', u) ==> Holds(m, u);
  }

  lemma {:induction false} EveryRunExcludes(states: seq<Mutex>, steps: seq<Step>, i: nat)
    requires IsRun(states, steps) && i < |states|
    ensures Exclusive(states[i])
  {
    if i > 0 {
      EveryRunExcludes(states, steps, i - 1);
      StepKeepsExclusion(states[i - 1], steps[i - 1]);
    }
  }

  /** In every run a poll gets the lock if and only if nobody holds it; otherwise the task is queued and sleeps. */
  lemma PollGetsFreeLock(states: seq<Mutex>, steps: seq<Step>, i: nat)
    requires IsRun(states, steps) && i < |steps| && steps[i].Poll?
    ensures var m, m', t := states[i], states[i + 1], steps[i].t;
            && (Holds(m', t) <==> forall u :: !Holds(m, u))
            && (!Holds(m', t) ==> t in m'.waiters && t in m'.tasks && m'.tasks[t] == Waiting(false))
            && m.waiters <= m'.waiters && |m'.waiters| <= |m.waiters| + 1
            && (forall u :: u in m.tasks && u != t ==> u in m'.tasks && m'.tasks[u] == m.tasks[u])
  {
    EveryRunExcludes(states, steps, i);
  }

  /** In every run a release leaves the lock free and wakes the task that was queued first, if it still waits. */
  lemma ReleaseWakesFirst(states: seq<Mutex>, steps: seq<Step>, i: nat)
    requires IsRun(states, steps) && i < |steps| && steps[i].Release?
    ensures var m, m' := states[i], states[i + 1];
            && (forall u :: !Holds(m', u))
            && m'.waiters == (if m.waiters == [] then [] else m.waiters[1..])
            && (forall u :: u in m'.tasks <==> u in m.tasks && u != steps[i].t)
            && (forall u :: u in m'.tasks ==>
                  m'.tasks[u] == if m.waiters != [] && u == m.waiters[0] then Waiting(true) else m.tasks[u])
  {
    EveryRunExcludes(states, steps, i);
    assert Holds(states[i], steps[i].t);
    forall u | u in states[i].tasks && u != steps[i].t ensures states[i].tasks[u].Waiting? {
      assert !Holds(states[i], u);
    }
  }

  // ----- Hand-over -----

  predicate Woken(m: Mutex, t: nat) {
    t in m.tasks && m.tasks[t] == Waiting(true)
  }

  ghost predicate SomeoneWoken(m: Mutex) {
    exists t :: Woken(m, t)
  }

  predicate NoRepeats(s: seq<nat>) {
    forall i, j :: 0 <= i < j < |s| ==> s[i] != s[j]
  }

  /** The queue holds the sleeping tasks, and a queue behind an open lock has a woken task before it. */
  ghost predicate HandsOver(m: Mutex) {
    && NoRepeats(m.waiters)
    && (forall t :: t in m.waiters <==> t in m.tasks && m.tasks[t] == Waiting(false))
    && (m.waiters != [] && !m.locked ==> SomeoneWoken(m))
  }

  /**
   A task that is asleep may be polled unprompted only while the lock is held; a pending future may be dropped only
   once it was woken, and then only if the queue is empty, the lock is held, or another task was woken too.
   */
  ghost predicate Harmless(m: Mutex, step: Step) {
    match step
    case Poll(t) => t in m.tasks && m.tasks[t] == Waiting(false) ==> m.locked
    case Release(t) => true
    case Cancel(t) =>
      && t in m.tasks && m.tasks[t] == Waiting(true)
      && (m.waiters == [] || m.locked || exists u :: u != t && Woken(m, u))
  }

  lemma HarmlessKeepsHandOver(m: Mutex, step: Step)
    requires Exclusive(m) && HandsOver(m) && Enabled(m, step) && Harmless(m, step)
    ensures HandsOver(Apply(m, step))
  {
    var m' := Apply(m, step);
    match step
    case Release(t) =>
      if m.waiters != [] {
        var next := m.waiters[0];
        assert next in m.waiters;
        assert Woken(m', next);
        assert forall t :: t in m.waiters <==> t == next || t in m.waiters[1..];
      }
    case Cancel(t) =>
      if m.waiters != [] && !m.locked {
        var u :| u != t && Woken(m, u);
        assert Woken(m', u);
      }
    case Poll(t) =>
  }

  lemma HarmfulBreaksHandOver(m: Mutex, step: Step)
    requires Exclusive(m) && HandsOver(m) && Enabled(m, step) && !Harmless(m, step)
    ensures !HandsOver(Apply(m, step))
  {
    var m' := Apply(m, step);
    match step
    case Poll(t) => assert t in m.waiters && t in m'.waiters;
    case Cancel(t) =>
      if m.tasks[t] == Waiting(false) {
        assert t in m'.waiters;
      } else {
        assert forall u :: Woken(m', u) ==> Woken(m, u) && u != t;
      }
  }

  /** A step keeps the hand-over if and only if it is harmless. */
  lemma HandOverIffHarmless(m: Mutex, step: Step)
    requires Exclusive(m) && HandsOver(m) && Enabled(m, step)
    ensures HandsOver(Apply(m, step)) <==> Harmless(m, step)
  {
    if Harmless(m, step) {
      HarmlessKeepsHandOver(m, step);
    } else {
      HarmfulBreaksHandOver(m, step);
    }
  }

  /** The lock is handed over in each of the first `n + 1` states. */
  ghost predicate AlwaysHandsOver(states: seq<Mutex>, n: nat)
    requires n < |states|
  {
    HandsOver(states[n]) && (n > 0 ==> AlwaysHandsOver(states, n - 1))
  }

  /** Each of the first `n` steps is harmless. */
  ghost predicate AlwaysHarmless(states: seq<Mutex>, steps: seq<Step>, n: nat)
    requires n < |states| && n <= |steps|
  {
    n > 0 ==> Harmless(states[n - 1], steps[n - 1]) && AlwaysHarmless(states, steps, n - 1)
  }

  /**
   A run hands over at every point if and only if all its steps are harmless; a task that waits is then behind a
   guard, or behind a woken task yet to poll.
   */
  lemma {:induction false} RunHandsOverIffHarmless(states: seq<Mutex>, steps: seq<Step>, n: nat)
    requires IsRun(states, steps) && n < |states|
    ensures AlwaysHandsOver(states, n) <==> AlwaysHarmless(states, steps, n)
    ensures AlwaysHarmless(states, steps, n) && states[n].waiters != [] ==>
              states[n].locked || SomeoneWoken(states[n])
  {
    if n > 0 {
      RunHandsOverIffHarmless(states, steps, n - 1);
      EveryRunExcludes(states, steps, n - 1);
      if HandsOver(states[n - 1]) {
        HandOverIffHarmless(states[n - 1], steps[n - 1]);
      }
    }
  }

  /** What harm does: cancelling the first of several waiters strands the others. */
  lemma CancelStrands(m: Mutex, holder: nat)
    requires Exclusive(m) && HandsOver(m) && Holds(m, holder) && |m.waiters| >= 2 && !SomeoneWoken(m)
    ensures var first := m.waiters[0];
            && Enabled(m, Cancel(first))
            && var m' := ReleaseLock(Apply(m, Cancel(first)), holder);
               m'.waiters != [] && !m'.locked && !SomeoneWoken(m')
  {
    var first := m.waiters[0];
    assert first in m.waiters;
    var cancelled := Apply(m, Cancel(first));
    assert forall t :: Woken(ReleaseLock(cancelled, holder), t) ==> Woken(m, t);
  }

  /**
   An unprompted poll that wins the lock does so too: with `a` woken and `b` queued, `b` takes the lock
   unasked, `a` queues behind `b`'s old waker, and `b`'s release spends `a`'s turn on that waker.
   */
  lemma UnpromptedPollStrands(m: Mutex, a: nat, b: nat)
    requires Exclusive(m) && HandsOver(m) && !m.locked && m.waiters == [b]
    requires forall t :: Woken(m, t) <==> t == a
    ensures Enabled(m, Poll(b)) && !Harmless(m, Poll(b))
    ensures var m' := ReleaseLock(PollLock(PollLock(m, b), a), b);
            m'.waiters == [a] && !m'.locked && !SomeoneWoken(m')
  {
    assert b in m.waiters;
    var m2 := PollLock(PollLock(m, b), a);
    assert m2.waiters == [b, a];
    var m' := ReleaseLock(m2, b);
    assert m'.tasks == m2.tasks - {b};
    assert Woken(m, a) && forall t :: Woken(m', t) ==> Woken(m, t);
  }

  // ----- The state under its spinlock -----

  class MutexState {
    var isLocked: bool
    var waiters: seq<nat>

    constructor ()
      ensures !isLocked && waiters == []
    {
      isLocked, waiters := false, [];
    }

    /** Takes the lock, or queues the task's waker unless one that would wake it is queued. */
    method TryLock(task: nat) returns (acquired: bool)
      modifies this
      ensures acquired == !old(isLocked) && isLocked
      ensures acquired ==> waiters == old(waiters)
      ensures !acquired ==> waiters == Enqueue(old(waiters), task)
    {
      if !isLocked {
        isLocked := true;
        return true;
      }
      var known := false;
      for i := 0 to |waiters|
        invariant known <==> task in waiters[..i]
      {
        known := known || waiters[i] == task;
      }
      assert waiters[..|waiters|] == waiters;
      if !known {
        waiters := waiters + [task];
      }
      return false;
    }

    /** Wakes the longest waiting task, then opens the lock. */
    method Unlock() returns (woken: Option<nat>)
      modifies this
      ensures !isLocked
      ensures old(waiters) == [] ==> woken == None && waiters == []
      ensures old(waiters) != [] ==> woken == Some(old(waiters)[0]) && [old(waiters)[0]] + waiters == old(waiters)
    {
      woken := None;
      if waiters != [] {
        woken := Some(waiters[0]);
        waiters := waiters[1..];
      }
      isLocked := false;
    }
  }
}
