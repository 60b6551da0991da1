/**
 The condition variable and its waiting futures as an interleaving of lock holds. A future
 registers once and keeps its token after it is woken, so a future that is woken too early
 and sleeps again is no longer in the set: the theorem says exactly when that cannot happen.
 */
module ConditionVariables {
  import opened PageFrames
  import opened WakerSets

  datatype Phase =
    | Fresh     // not yet polled
    | Asleep    // polled, pending, not woken since
    | Awake     // woken since it last returned pending
    | Finished  // returned ready, not yet dropped

  datatype Future = Future(phase: Phase, token: Option<nat>)

  datatype CondVar<S> = CondVar(state: S, wakers: Wakers, futures: map<nat, Future>)

  datatype Step<S> =
    | Create(f: nat)
    | Poll(f: nat)
    | Drop(f: nat)
    | Update(next: S, kind: WakeupType)

  /** Which future waits for what. */
  type Condition<!S> = (nat, S) -> bool

  function Created<S>(initial: S): CondVar<S> {
    CondVar(initial, NoWakers, map[])
  }

  ghost predicate Enabled<S>(c: CondVar<S>, step: Step<S>) {
    match step
    case Create(f) => f !in c.futures
    case Poll(f) => f in c.futures && !c.futures[f].phase.Finished? && c.wakers.nextId + 1 < TOKENS
    case Drop(f) => f in c.futures
    case Update(next, kind) => true
  }

  function PollFuture<S>(cond: Condition<S>, c: CondVar<S>, f: nat): CondVar<S>
    requires f in c.futures
  {
    var future := c.futures[f];
    if cond(f, c.state) then c.(futures := c.futures[f := future.(phase := Finished)])
    else if future.token.None?
    then c.(wakers := Register(c.wakers, f), futures := c.futures[f := Future(Asleep, Some(c.wakers.nextId))])
    else c.(futures := c.futures[f := future.(phase := Asleep)])
  }

  function DropFuture<S>(c: CondVar<S>, f: nat): CondVar<S>
    requires f in c.futures
  {
    var token := c.futures[f].token;
    c.(wakers := if token.Some? then Remove(c.wakers, token.value) else c.wakers, futures := c.futures - {f})
  }

  function WakeFutures(futures: map<nat, Future>, woken: set<nat>): map<nat, Future> {
    map f | f in futures ::
      if f in woken && futures[f].phase.Asleep? then futures[f].(phase := Awake) else futures[f]
  }

  ghost function UpdateState<S>(c: CondVar<S>, next: S, kind: WakeupType): CondVar<S> {
    CondVar(next, Wake(c.wakers, kind), WakeFutures(c.futures, Woken(c.wakers, kind)))
  }

  ghost function Apply<S>(cond: Condition<S>, c: CondVar<S>, step: Step<S>): CondVar<S>
    requires Enabled(c, step)
  {
    match step
    case Create(f) => c.(futures := c.futures[f := Future(Fresh, None)])
    case Poll(f) => PollFuture(cond, c, f)
    case Drop(f) => DropFuture(c, f)
    case Update(next, kind) => UpdateState(c, next, kind)
  }

  ghost predicate IsRun<S>(cond: Condition<S>, states: seq<CondVar<S>>, steps: seq<Step<S>>) {
    && |states| == |steps| + 1
    && states[0] == Created(states[0].state)
    && forall i :: 0 <= i < |steps| ==>
         Enabled(states[i], steps[i]) && states[i + 1] == Apply(cond, states[i], steps[i])
  }

  // ----- Tokens -----

  predicate Registered<S>(c: CondVar<S>, f: nat) {
    && f in c.futures && c.futures[f].token.Some?
    && c.futures[f].token.value in c.wakers.waiters && c.wakers.waiters[c.futures[f].token.value] == f
  }

  /** Every registered token belongs to one live future, and tokens are never shared. */
  ghost predicate TokensOwned<S>(c: CondVar<S>) {
    && (forall t :: t in c.wakers.waiters ==>
          c.wakers.waiters[t] in c.futures && c.futures[c.wakers.waiters[t]].token == Some(t))
    && (forall f :: f in c.futures && c.futures[f].token.Some? ==> c.futures[f].token.value < c.wakers.nextId)
    && (forall f, g :: f in c.futures && g in c.futures && f != g && c.futures[f].token.Some?
                       ==> c.futures[f].token != c.futures[g].token)
    && (forall f :: f in c.futures && (c.futures[f].phase.Asleep? || c.futures[f].phase.Awake?)
                    ==> c.futures[f].token.Some?)
    && (forall f :: f in c.futures && c.futures[f].phase.Fresh? ==> c.futures[f].token.None?)
    && c.wakers.nextId < TOKENS
  }

  lemma PollKeepsTokens<S>(cond: Condition<S>, c: CondVar<S>, f: nat)
    requires TokensOwned(c) && Enabled(c, Poll(f))
    ensures TokensOwned(PollFuture(cond, c, f))
  {
  }

  lemma UpdateKeepsTokens<S>(c: CondVar<S>, next: S, kind: WakeupType)
    requires TokensOwned(c)
    ensures TokensOwned(UpdateState(c, next, kind))
  {
  }

  lemma StepKeepsTokens<S>(cond: Condition<S>, c: CondVar<S>, step: Step<S>)
    requires TokensOwned(c) && Enabled(c, step)
    ensures TokensOwned(Apply(cond, c, step))
  {
    match step
    case Create(f) =>
    case Poll(f) => PollKeepsTokens(cond, c, f);
    case Drop(f) =>
    case Update(next, kind) => UpdateKeepsTokens(c, next, kind);
  }

  lemma {:induction false} EveryRunOwnsTokens<S>(
    cond: Condition<S>, states: seq<CondVar<S>>, steps: seq<Step<S>>, i: nat)
    requires IsRun(cond, states, steps) && i < |states|
    ensures TokensOwned(states[i])
  {
    if i > 0 {
      EveryRunOwnsTokens(cond, states, steps, i - 1);
      StepKeepsTokens(cond, states[i - 1], steps[i - 1]);
    }
  }

  /** A poll is ready if and only if the condition holds; a future that first sleeps is registered. No other changes. */
  lemma PollReadyIff<S>(cond: Condition<S>, c: CondVar<S>, f: nat)
    requires TokensOwned(c) && Enabled(c, Poll(f))
    ensures var c' := Apply(cond, c, Poll(f));
            && f in c'.futures && c'.state == c.state
            && (c'.futures[f].phase.Finished? <==> cond(f, c.state))
            && (c'.futures[f].phase.Asleep? <==> !cond(f, c.state))
            && (c.futures[f].phase.Fresh? && !cond(f, c.state) ==> Registered(c', f))
            && (forall g :: g in c.futures && g != f ==>
                  g in c'.futures && c'.futures[g] == c.futures[g] && (Registered(c', g) <==> Registered(c, g)))
  {
  }

  /** A future lives from its creation, unpolled and unregistered, to its drop. */
  lemma FutureLives<S>(cond: Condition<S>, c: CondVar<S>, f: nat)
    requires TokensOwned(c)
    ensures f !in c.futures ==>
              var c' := Apply(cond, c, Create(f));
              f in c'.futures && c'.futures[f] == Future(Fresh, None) && !Registered(c', f) && c'.state == c.state
    ensures f in c.futures ==> f !in Apply(cond, c, Drop(f)).futures
  {
  }

  /** A dropped future takes its own registration with it and no other. */
  lemma DropRemovesOwnToken<S>(c: CondVar<S>, f: nat, g: nat)
    requires TokensOwned(c) && f in c.futures && g in c.futures && f != g
    ensures Registered(DropFuture(c, f), g) <==> Registered(c, g)
    ensures forall t :: t in DropFuture(c, f).wakers.waiters ==> DropFuture(c, f).wakers.waiters[t] != f
  {
  }

  // ----- Wake-ups -----

  /** Waking everyone reaches a sleeping future exactly when it is still registered. */
  lemma WakeEveryReachesRegistered<S>(c: CondVar<S>, f: nat, next: S)
    requires TokensOwned(c) && f in c.futures && c.futures[f].phase.Asleep?
    ensures UpdateState(c, next, WakeEvery).futures[f].phase.Awake? <==> Registered(c, f)
  {
    if Registered(c, f) {
      assert c.futures[f].token.value in Taken(c.wakers, WakeEvery);
    }
  }

  /** A sleeping future that is no longer registered is not woken by any update, now or later. */
  lemma UnregisteredStaysAsleep<S>(cond: Condition<S>, c: CondVar<S>, f: nat, step: Step<S>)
    requires TokensOwned(c) && Enabled(c, step) && f in c.futures && c.futures[f].phase.Asleep? && !Registered(c, f)
    requires step != Poll(f) && step != Drop(f)
    ensures var c' := Apply(cond, c, step);
            f in c'.futures && c'.futures[f].phase.Asleep? && !Registered(c', f)
  {
  }

  /** A sleeper is registered and its condition false; the condition of a woken future holds when it polls. */
  predicate Attended<S>(cond: Condition<S>, c: CondVar<S>, f: nat) {
    f in c.futures ==>
      && (c.futures[f].phase.Asleep? ==> Registered(c, f) && !cond(f, c.state))
      && (c.futures[f].phase.Awake? ==> cond(f, c.state))
  }

  /**
   An update that suits `f`: asleep, it is woken if and only if the update makes its condition true; once woken, its
   condition stays true. Whom else the update wakes does not matter.
   */
  ghost predicate Timely<S>(cond: Condition<S>, f: nat, c: CondVar<S>, step: Step<S>) {
    step.Update? && f in c.futures ==>
      match c.futures[f].phase
      case Asleep =>
        && c.futures[f].token.Some?
        && (cond(f, step.next) <==> c.futures[f].token.value in Taken(c.wakers, step.kind))
      case Awake => cond(f, step.next)
      case _ => true
  }

  lemma UpdateAttendsIffTimely<S>(cond: Condition<S>, c: CondVar<S>, f: nat, next: S, kind: WakeupType)
    requires TokensOwned(c) && Attended(cond, c, f)
    ensures Attended(cond, UpdateState(c, next, kind), f) <==> Timely(cond, f, c, Update(next, kind))
  {
    if f in c.futures && c.futures[f].phase.Asleep? {
      var token := c.futures[f].token.value;
      if token in Taken(c.wakers, kind) {
        assert f in Woken(c.wakers, kind);
      } else {
        assert f !in Woken(c.wakers, kind);
      }
    }
  }

  /** A step keeps `f` attended if and only if it is not an untimely update. */
  lemma AttendedIffTimely<S>(cond: Condition<S>, c: CondVar<S>, f: nat, step: Step<S>)
    requires TokensOwned(c) && Enabled(c, step) && Attended(cond, c, f)
    ensures Attended(cond, Apply(cond, c, step), f) <==> Timely(cond, f, c, step)
  {
    match step
    case Create(g) =>
    case Poll(g) =>
    case Drop(g) =>
      if f in c.futures && g != f { DropRemovesOwnToken(c, g, f); }
    case Update(next, kind) => UpdateAttendsIffTimely(cond, c, f, next, kind);
  }

  /** `f` is attended in each of the first `n + 1` states. */
  ghost predicate AlwaysAttended<S>(cond: Condition<S>, states: seq<CondVar<S>>, f: nat, n: nat)
    requires n < |states|
  {
    Attended(cond, states[n], f) && (n > 0 ==> AlwaysAttended(cond, states, f, n - 1))
  }

  /** Each of the first `n` steps is timely for `f`. */
  ghost predicate AlwaysTimely<S>(cond: Condition<S>, states: seq<CondVar<S>>, steps: seq<Step<S>>, f: nat, n: nat)
    requires n < |states| && n <= |steps|
  {
    n > 0 ==> Timely(cond, f, states[n - 1], steps[n - 1]) && AlwaysTimely(cond, states, steps, f, n - 1)
  }

  /**
   A future is attended throughout a run if and only if every update was timely for it, whatever the other futures do;
   then it never sleeps while its condition holds.
   */
  lemma {:induction false} NoLostWakeUp<S>(
    cond: Condition<S>, states: seq<CondVar<S>>, steps: seq<Step<S>>, f: nat, n: nat)
    requires IsRun(cond, states, steps) && n < |states|
    ensures AlwaysAttended(cond, states, f, n) <==> AlwaysTimely(cond, states, steps, f, n)
    ensures AlwaysTimely(cond, states, steps, f, n) && f in states[n].futures && cond(f, states[n].state) ==>
              !states[n].futures[f].phase.Asleep?
  {
    if n > 0 {
      NoLostWakeUp(cond, states, steps, f, n - 1);
      EveryRunOwnsTokens(cond, states, steps, n - 1);
      if Attended(cond, states[n - 1], f) {
        AttendedIffTimely(cond, states[n - 1], f, steps[n - 1]);
      }
    }
  }

  /**
   What an untimely update does: from any state in which `f` sleeps, an update that wakes everyone
   while `f`'s condition is false loses the wake-up of the update that later makes it true.
   */
  lemma EarlyWakeLosesLater<S>(cond: Condition<S>, c: CondVar<S>, f: nat, early: S, late: S)
    requires TokensOwned(c) && c.wakers.nextId + 1 < TOKENS && f in c.futures && c.futures[f].phase.Asleep?
    requires !cond(f, early) && cond(f, late)
    ensures var c1 := UpdateState(c, early, WakeEvery);
            var c2 := PollFuture(cond, c1, f);
            var c3 := UpdateState(c2, late, WakeEvery);
            && Enabled(c1, Poll(f)) && cond(f, c3.state) && c3.futures[f].phase.Asleep? && !Registered(c3, f)
  {
    var c1 := UpdateState(c, early, WakeEvery);
    assert c1.wakers.waiters == map[];
    var c2 := PollFuture(cond, c1, f);
    assert c2.wakers.waiters == map[];
    assert Woken(c2.wakers, WakeEvery) == {};
  }

  // ----- Two uses of the condition variable -----

  /** `vfork_blocked_parent`: set before the parent waits, cleared by the child's first exec or exit. */
  function StartVfork(blocked: bool): (bool, WakeupType) {
    (true, WakeNone)
  }

  function CompleteVfork(blocked: bool): (bool, WakeupType) {
    if blocked then (false, WakeEvery) else (blocked, WakeNone)
  }

  /** A pipe end that goes sets the flag of the other side. */
  function SideGone(gone: bool): (bool, WakeupType) {
    (true, WakeEvery)
  }

  predicate VforkStep(c: CondVar<bool>, step: Step<bool>) {
    step.Update? ==>
      || (c.futures == map[] && (step.next, step.kind) == StartVfork(c.state))
      || (step.next, step.kind) == CompleteVfork(c.state)
  }

  predicate PipeStep(c: CondVar<bool>, step: Step<bool>) {
    step.Update? ==> (step.next, step.kind) == SideGone(c.state)
  }

  /** An update that wakes everyone when it makes the condition true, and no one else, is timely for all. */
  lemma WakingAllIsTimely<S>(cond: Condition<S>, c: CondVar<S>, f: nat, step: Step<S>)
    requires TokensOwned(c) && Attended(cond, c, f) && step.Update?
    requires f in c.futures && cond(f, c.state) ==> cond(f, step.next)
    requires f in c.futures && !cond(f, c.state) ==> step.kind == if cond(f, step.next) then WakeEvery else WakeNone
    ensures Timely(cond, f, c, step)
  {
  }

  /** A parent waits exactly from the start of a vfork to its release, which wakes it. */
  lemma VforkReleases(c: CondVar<bool>, f: nat)
    requires TokensOwned(c) && f in c.futures && c.futures[f].phase.Asleep? && Registered(c, f)
    ensures StartVfork(c.state).0 && !CompleteVfork(c.state).0
    ensures var (next, kind) := CompleteVfork(c.state);
            UpdateState(c, next, kind).futures[f].phase == if c.state then Awake else Asleep
  {
    if c.state {
      WakeEveryReachesRegistered(c, f, false);
    } else {
      assert Woken(c.wakers, WakeNone) == {};
    }
  }

  /** Whoever waits for the other end of a pipe to go is woken when it does. */
  lemma SideGoneWakes(c: CondVar<bool>, f: nat)
    requires TokensOwned(c) && f in c.futures && c.futures[f].phase.Asleep? && Registered(c, f)
    ensures var (next, kind) := SideGone(c.state);
            next && UpdateState(c, next, kind).state && UpdateState(c, next, kind).futures[f].phase.Awake?
  {
    WakeEveryReachesRegistered(c, f, true);
  }

  /** A parent blocked in vfork is not asleep once the child has released it, however often that is said. */
  lemma {:induction false} VforkParentResumes(states: seq<CondVar<bool>>, steps: seq<Step<bool>>, f: nat, n: nat)
    requires IsRun((g, blocked) => !blocked, states, steps) && n < |states| && !states[0].state
    requires forall j :: 0 <= j < |steps| ==> VforkStep(states[j], steps[j])
    ensures AlwaysTimely((g, blocked) => !blocked, states, steps, f, n)
    ensures f in states[n].futures && !states[n].state ==> !states[n].futures[f].phase.Asleep?
  {
    var cond := (g: nat, blocked: bool) => !blocked;
    if n > 0 {
      VforkParentResumes(states, steps, f, n - 1);
      NoLostWakeUp(cond, states, steps, f, n - 1);
      EveryRunOwnsTokens(cond, states, steps, n - 1);
      assert VforkStep(states[n - 1], steps[n - 1]);
      if steps[n - 1].Update? {
        WakingAllIsTimely(cond, states[n - 1], f, steps[n - 1]);
      }
    }
    NoLostWakeUp(cond, states, steps, f, n);
  }

  /** A reader or writer of a pipe is not asleep on the flag once the other side has gone. */
  lemma {:induction false} PipePeerNotices(states: seq<CondVar<bool>>, steps: seq<Step<bool>>, f: nat, n: nat)
    requires IsRun((g, gone) => gone, states, steps) && n < |states|
    requires forall j :: 0 <= j < |steps| ==> PipeStep(states[j], steps[j])
    ensures AlwaysTimely((g, gone) => gone, states, steps, f, n)
    ensures f in states[n].futures && states[n].state ==> !states[n].futures[f].phase.Asleep?
  {
    var cond := (g: nat, gone: bool) => gone;
    if n > 0 {
      PipePeerNotices(states, steps, f, n - 1);
      NoLostWakeUp(cond, states, steps, f, n - 1);
      EveryRunOwnsTokens(cond, states, steps, n - 1);
      assert PipeStep(states[n - 1], steps[n - 1]);
      if steps[n - 1].Update? {
        WakingAllIsTimely(cond, states[n - 1], f, steps[n - 1]);
      }
    }
    NoLostWakeUp(cond, states, steps, f, n);
  }

  /** The lock-protected half of a condition variable. */
  class CondVarInner<S> {
    var state: S
    const wakers: WakerSet

    constructor (initial: S)
      ensures state == initial && fresh(wakers) && wakers.State() == NoWakers
    {
      state := initial;
      wakers := new WakerSet();
    }

    /** Applies an updater to the state and performs the wake-up it asks for. */
    method RunUpdate(updater: S -> (S, WakeupType)) returns (woken: set<nat>)
      modifies this, wakers
      ensures state == updater(old(state)).0
      ensures wakers.State() == Wake(old(wakers.State()), updater(old(state)).1)
      ensures woken == Woken(old(wakers.State()), updater(old(state)).1)
    {
      var (next, kind) := updater(state);
      state := next;
      woken := {};
      match kind
      case WakeNone =>
      case WakeFirst =>
        var one := wakers.WakeOne();
        if one.Some? { woken := {one.value}; }
      case WakeEvery =>
        woken := wakers.WakeAll();
    }

    /** One poll of a waiting future: the condition first, then a single registration. */
    method PollWait(cond: S -> bool, f: nat, token: Option<nat>) returns (ready: bool, kept: Option<nat>)
      modifies wakers
      ensures ready == cond(state)
      ensures ready || token.Some? ==> kept == token && wakers.State() == old(wakers.State())
      ensures !ready && token.None? ==>
                kept == Some(old(wakers.nextId)) && wakers.State() == Register(old(wakers.State()), f)
    {
      if cond(state) {
        return true, token;
      }
      kept := token;
      if token.None? {
        var id := wakers.RegisterWaker(f);
        kept := Some(id);
      }
      return false, kept;
    }
  }
}
