/**
 The clock-step protocol: any number of `set_date` calls against any number of realtime sleepers,
 each lock hold and each clock reading one step. A sleeper samples the generation, reads the
 clock, and parks on the generation it sampled.
 */
module RealtimeClock {
  import opened PageFrames
  import opened WakerSets

  /** A known duration since the epoch at an instant. */
  datatype Epoch = Epoch(duration: int, instant: int)

  /** What the realtime clock shows at instant `t`; without a record it shows the uptime. */
  function DateAt(epoch: Option<Epoch>, t: int): int {
    if epoch.Some? then epoch.value.duration + (t - epoch.value.instant) else t
  }

  /** A clock reading: when it was made, what it was, and how many records had been written. */
  datatype Reading = Reading(at: int, date: int, version: nat)

  datatype Sleeper =
    | Top(target: int)
    | Sampled(target: int, generation: nat)
    | Loaded(target: int, generation: nat, epoch: Option<Epoch>, version: nat)
    | HasRead(target: int, generation: nat, reading: Reading)
    | Parked(target: int, generation: nat, reading: Reading, armedAt: int, token: nat, woken: bool)
    | Returned(target: int, reading: Reading)

  /** A call of set_date: it reads the time, then writes its record, then bumps the generation. */
  datatype Setter = Began(duration: int, instant: Option<int>) | Wrote(version: nat)

  datatype Clock = Clock(
    now: int,
    epoch: Option<Epoch>,
    version: nat,               // records written so far
    generation: nat,
    wakers: Wakers,
    setters: map<nat, Setter>,
    sleepers: map<nat, Sleeper>)

  const Booted := Clock(0, None, 0, 0, NoWakers, map[], map[])

  datatype Step =
    | Tick(d: nat)
    | BeginSet(setter: nat, duration: int, timer: bool)
    | WriteEpoch(setter: nat)              // nothing is written if there was no timer yet
    | Bump(setter: nat)
    | Sleep(s: nat, target: int)
    | Sample(s: nat)
    | LoadEpoch(s: nat)                    // the record is copied under its lock
    | ReadClock(s: nat)                    // the time is read after that lock is released
    | Park(s: nat)                         // first poll of the raced timer and notification
    | Wake(s: nat)                         // a later poll, whatever caused it
    | Cancel(s: nat)

  /** How long the timer of a sleeper is set for. */
  function Remaining(s: Sleeper): int
    requires s.Parked?
  {
    s.target - s.reading.date
  }

  ghost predicate Enabled(c: Clock, step: Step) {
    match step
    case Tick(d) => true
    case BeginSet(setter, duration, timer) => setter !in c.setters
    case WriteEpoch(setter) => setter in c.setters && c.setters[setter].Began?
    case Bump(setter) => setter in c.setters && c.setters[setter].Wrote?
    case Sleep(s, target) => s !in c.sleepers
    case Sample(s) => s in c.sleepers && c.sleepers[s].Top?
    case LoadEpoch(s) => s in c.sleepers && c.sleepers[s].Sampled?
    case ReadClock(s) => s in c.sleepers && c.sleepers[s].Loaded?
    case Park(s) => s in c.sleepers && c.sleepers[s].HasRead? && c.wakers.nextId + 1 < TOKENS
    case Wake(s) => s in c.sleepers && c.sleepers[s].Parked?
    case Cancel(s) => s in c.sleepers
  }

  function SetSleeper(c: Clock, s: nat, to: Sleeper): Clock {
    c.(sleepers := c.sleepers[s := to])
  }

  /** The registration is removed when the notification is dropped unresolved. */
  function Forget(c: Clock, s: nat): Clock
    requires s in c.sleepers
  {
    if c.sleepers[s].Parked? then c.(wakers := Remove(c.wakers, c.sleepers[s].token)) else c
  }

  ghost function BumpGeneration(c: Clock, setter: nat): Clock {
    var woken := Woken(c.wakers, WakeEvery);
    c.(generation := c.generation + 1,
       wakers := WakerSets.Wake(c.wakers, WakeEvery),
       setters := c.setters - {setter},
       sleepers := map s | s in c.sleepers ::
                     if s in woken && c.sleepers[s].Parked? then c.sleepers[s].(woken := true) else c.sleepers[s])
  }

  function WriteRecord(c: Clock, setter: nat): Clock
    requires setter in c.setters && c.setters[setter].Began?
  {
    var Began(duration, instant) := c.setters[setter];
    if instant.None? then c.(setters := c.setters[setter := Wrote(0)])
    else c.(epoch := Some(Epoch(duration, instant.value)), version := c.version + 1,
            setters := c.setters[setter := Wrote(c.version + 1)])
  }

  function ReadDate(c: Clock, s: nat): Sleeper
    requires s in c.sleepers && c.sleepers[s].Loaded?
  {
    var Loaded(target, generation, epoch, version) := c.sleepers[s];
    var reading := Reading(c.now, DateAt(epoch, c.now), version);
    if reading.date >= target then Returned(target, reading) else HasRead(target, generation, reading)
  }

  /** The generation is compared under the waiters' lock; only an unchanged one is parked on. */
  function ParkSleeper(c: Clock, s: nat): Clock
    requires s in c.sleepers && c.sleepers[s].HasRead?
  {
    var HasRead(target, generation, reading) := c.sleepers[s];
    if c.generation != generation then SetSleeper(c, s, Top(target))
    else SetSleeper(c.(wakers := Register(c.wakers, s)), s,
                    Parked(target, generation, reading, c.now, c.wakers.nextId, false))
  }

  /** The timer is looked at first; the notification that resolves does not remove its token. */
  function PollSleeper(c: Clock, s: nat): Clock
    requires s in c.sleepers && c.sleepers[s].Parked?
  {
    var me := c.sleepers[s];
    if c.now >= me.armedAt + Remaining(me) then SetSleeper(Forget(c, s), s, Top(me.target))
    else if c.generation != me.generation then SetSleeper(c, s, Top(me.target))
    else SetSleeper(c, s, me.(woken := false))
  }

  ghost function Apply(c: Clock, step: Step): Clock
    requires Enabled(c, step)
  {
    match step
    case Tick(d) => c.(now := c.now + d)
    case BeginSet(setter, duration, timer) =>
      c.(setters := c.setters[setter := Began(duration, if timer then Some(c.now) else None)])
    case WriteEpoch(setter) => WriteRecord(c, setter)
    case Bump(setter) => BumpGeneration(c, setter)
    case Sleep(s, target) => SetSleeper(c, s, Top(target))
    case Sample(s) => SetSleeper(c, s, Sampled(c.sleepers[s].target, c.generation))
    case LoadEpoch(s) =>
      SetSleeper(c, s, Loaded(c.sleepers[s].target, c.sleepers[s].generation, c.epoch, c.version))
    case ReadClock(s) => SetSleeper(c, s, ReadDate(c, s))
    case Park(s) => ParkSleeper(c, s)
    case Wake(s) => PollSleeper(c, s)
    case Cancel(s) => Forget(c, s).(sleepers := c.sleepers - {s})
  }

  ghost predicate IsRun(states: seq<Clock>, steps: seq<Step>) {
    && |states| == |steps| + 1
    && states[0] == Booted
    && forall i :: 0 <= i < |steps| ==> Enabled(states[i], steps[i]) && states[i + 1] == Apply(states[i], steps[i])
  }

  // ----- Invariant -----

  /** Some call of set_date has written record `v` and not yet bumped the generation. */
  ghost predicate PendingRecord(c: Clock, v: nat) {
    exists setter :: setter in c.setters && c.setters[setter] == Wrote(v)
  }

  /** A record loaded under the current generation is outdated only by calls still in progress. */
  ghost predicate RecordHolds(c: Clock, generation: nat, version: nat) {
    && generation <= c.generation && version <= c.version
    && (generation == c.generation ==> forall v :: version < v <= c.version ==> PendingRecord(c, v))
  }

  ghost predicate ReadingHolds(c: Clock, generation: nat, reading: Reading) {
    && RecordHolds(c, generation, reading.version)
    && (reading.version == c.version ==> reading.date == DateAt(c.epoch, reading.at))
  }

  ghost predicate SleeperHolds(c: Clock, s: nat)
    requires s in c.sleepers
  {
    match c.sleepers[s]
    case Top(_) => true
    case Sampled(_, generation) => generation <= c.generation
    case Loaded(_, generation, epoch, version) =>
      RecordHolds(c, generation, version) && (version == c.version ==> epoch == c.epoch)
    case HasRead(_, generation, reading) => ReadingHolds(c, generation, reading)
    case Parked(_, generation, reading, _, token, woken) =>
      && ReadingHolds(c, generation, reading)
      && token < c.wakers.nextId
      && (woken <==> generation != c.generation)
      && (!woken ==> token in c.wakers.waiters && c.wakers.waiters[token] == s)
    case Returned(target, reading) => reading.date >= target
  }

  /** Every registration belongs to a parked sleeper that has not been woken. */
  ghost predicate TokensHold(c: Clock) {
    && c.wakers.nextId < TOKENS
    && (forall r, s :: r in c.sleepers && s in c.sleepers && r != s && c.sleepers[r].Parked? && c.sleepers[s].Parked?
                       ==> c.sleepers[r].token != c.sleepers[s].token)
    && forall t :: t in c.wakers.waiters ==>
         var s := c.wakers.waiters[t];
         s in c.sleepers && c.sleepers[s].Parked? && c.sleepers[s].token == t && !c.sleepers[s].woken
  }

  ghost predicate Inv(c: Clock) {
    TokensHold(c) && forall s :: s in c.sleepers ==> SleeperHolds(c, s)
  }

  /** A setter's step before its bump keeps the records that calls in progress have written. */
  lemma SetterKeepsRecord(c: Clock, step: Step, generation: nat, version: nat)
    requires Enabled(c, step) && (step.BeginSet? || step.WriteEpoch?) && RecordHolds(c, generation, version)
    ensures RecordHolds(Apply(c, step), generation, version)
  {
    var c' := Apply(c, step);
    if generation == c.generation {
      forall v | version < v <= c'.version ensures PendingRecord(c', v) {
        if v <= c.version {
          assert PendingRecord(c, v);
          var other :| other in c.setters && c.setters[other] == Wrote(v);
          assert other in c'.setters && c'.setters[other] == Wrote(v);
        } else {
          assert c'.setters[step.setter] == Wrote(v);
        }
      }
    }
  }

  lemma SetterStepKeeps(c: Clock, step: Step)
    requires Inv(c) && Enabled(c, step) && (step.BeginSet? || step.WriteEpoch?)
    ensures Inv(Apply(c, step))
  {
    var c' := Apply(c, step);
    forall s | s in c'.sleepers ensures SleeperHolds(c', s) {
      assert SleeperHolds(c, s);
      var me := c.sleepers[s];
      if me.Loaded? { SetterKeepsRecord(c, step, me.generation, me.version); }
      if me.HasRead? || me.Parked? { SetterKeepsRecord(c, step, me.generation, me.reading.version); }
    }
  }

  lemma BumpKeeps(c: Clock, setter: nat)
    requires Inv(c)
    ensures Inv(BumpGeneration(c, setter))
  {
    var c' := BumpGeneration(c, setter);
    assert c'.wakers.waiters == map[];
    forall s | s in c'.sleepers ensures SleeperHolds(c', s) {
      assert SleeperHolds(c, s);
      if c.sleepers[s].Parked? && !c.sleepers[s].woken {
        assert c.sleepers[s].token in Taken(c.wakers, WakeEvery);
        assert s in Woken(c.wakers, WakeEvery);
      }
    }
  }

  /** A sleeper's own step leaves what the others rely on alone. */
  lemma OthersKeep(c: Clock, c': Clock, s: nat)
    requires Inv(c) && c'.epoch == c.epoch && c'.version == c.version && c'.generation == c.generation
    requires c'.setters == c.setters && c.wakers.nextId <= c'.wakers.nextId
    requires forall r :: r in c'.sleepers && r != s ==> r in c.sleepers && c'.sleepers[r] == c.sleepers[r]
    requires forall t :: t in c.wakers.waiters && c.wakers.waiters[t] != s
                         ==> t in c'.wakers.waiters && c'.wakers.waiters[t] == c.wakers.waiters[t]
    ensures forall r :: r in c'.sleepers && r != s ==> SleeperHolds(c', r)
  {
    forall r | r in c'.sleepers && r != s ensures SleeperHolds(c', r) {
      assert SleeperHolds(c, r);
      var me := c.sleepers[r];
      if me.Loaded? { SameRecord(c, c', me.generation, me.version); }
      if me.HasRead? || me.Parked? { SameRecord(c, c', me.generation, me.reading.version); }
    }
  }

  lemma SameRecord(c: Clock, c': Clock, generation: nat, version: nat)
    requires RecordHolds(c, generation, version) && c'.setters == c.setters
    requires c'.version == c.version && c'.generation == c.generation
    ensures RecordHolds(c', generation, version)
  {
    if generation == c.generation {
      forall v | version < v <= c'.version ensures PendingRecord(c', v) { assert PendingRecord(c, v); }
    }
  }

  /** Forgetting a sleeper's token takes its registration out of the set, if it is there, and no other. */
  lemma ForgetOwn(c: Clock, s: nat)
    requires Inv(c) && s in c.sleepers
    ensures forall t :: t in Forget(c, s).wakers.waiters <==> t in c.wakers.waiters && c.wakers.waiters[t] != s
    ensures forall t :: t in Forget(c, s).wakers.waiters ==> Forget(c, s).wakers.waiters[t] == c.wakers.waiters[t]
    ensures Forget(c, s) == c.(wakers := Forget(c, s).wakers) && Forget(c, s).wakers.nextId == c.wakers.nextId
  {
    assert SleeperHolds(c, s);
  }

  /** A sleeper that is not parked may move to any state that fits the clock. */
  lemma MoveKeeps(c: Clock, s: nat, to: Sleeper)
    requires Inv(c) && (s in c.sleepers ==> !c.sleepers[s].Parked?) && !to.Parked?
    requires SleeperHolds(SetSleeper(c, s, to), s)
    ensures Inv(SetSleeper(c, s, to))
  {
    OthersKeep(c, SetSleeper(c, s, to), s);
  }

  lemma LeaveKeeps(c: Clock, s: nat)
    requires Inv(c) && s in c.sleepers
    ensures Inv(Forget(c, s).(sleepers := c.sleepers - {s}))
    ensures Inv(SetSleeper(Forget(c, s), s, Top(c.sleepers[s].target)))
  {
    ForgetOwn(c, s);
    OthersKeep(c, Forget(c, s).(sleepers := c.sleepers - {s}), s);
    OthersKeep(c, SetSleeper(Forget(c, s), s, Top(c.sleepers[s].target)), s);
  }

  lemma ParkKeeps(c: Clock, s: nat)
    requires Inv(c) && Enabled(c, Park(s))
    ensures Inv(ParkSleeper(c, s))
  {
    var c' := ParkSleeper(c, s);
    assert SleeperHolds(c, s);
    forall t | t in c.wakers.waiters ensures t != c.wakers.nextId { assert SleeperHolds(c, c.wakers.waiters[t]); }
    forall r | r in c.sleepers && c.sleepers[r].Parked? ensures c.sleepers[r].token < c.wakers.nextId {
      assert SleeperHolds(c, r);
    }
    OthersKeep(c, c', s);
    SameRecord(c, c', c.sleepers[s].generation, c.sleepers[s].reading.version);
  }

  lemma PollKeeps(c: Clock, s: nat)
    requires Inv(c) && Enabled(c, Wake(s))
    ensures Inv(PollSleeper(c, s))
  {
    var me := c.sleepers[s];
    assert SleeperHolds(c, s);
    LeaveKeeps(c, s);
    if c.now < me.armedAt + Remaining(me) && c.generation != me.generation {
      ForgetOwn(c, s);
      assert Forget(c, s).wakers.waiters == c.wakers.waiters;
    }
    if c.generation == me.generation {
      assert c.sleepers[s := me.(woken := false)] == c.sleepers;
    }
  }

  lemma TickKeeps(c: Clock, d: nat)
    requires Inv(c)
    ensures Inv(c.(now := c.now + d))
  {
    var c' := c.(now := c.now + d);
    forall s | s in c'.sleepers ensures SleeperHolds(c', s) {
      assert SleeperHolds(c, s);
      var me := c.sleepers[s];
      if me.Loaded? { SameRecord(c, c', me.generation, me.version); }
      if me.HasRead? || me.Parked? { SameRecord(c, c', me.generation, me.reading.version); }
    }
  }

  lemma StepKeeps(c: Clock, step: Step)
    requires Inv(c) && Enabled(c, step)
    ensures Inv(Apply(c, step))
  {
    match step
    case Tick(d) => TickKeeps(c, d);
    case BeginSet(_, _, _) => SetterStepKeeps(c, step);
    case WriteEpoch(_) => SetterStepKeeps(c, step);
    case Bump(setter) => BumpKeeps(c, setter);
    case Park(s) => ParkKeeps(c, s);
    case Wake(s) => PollKeeps(c, s);
    case Cancel(s) => LeaveKeeps(c, s);
    case Sleep(s, target) => MoveKeeps(c, s, Top(target));
    case Sample(s) => MoveKeeps(c, s, Sampled(c.sleepers[s].target, c.generation));
    case LoadEpoch(s) =>
      assert SleeperHolds(c, s);
      MoveKeeps(c, s, Loaded(c.sleepers[s].target, c.sleepers[s].generation, c.epoch, c.version));
    case ReadClock(s) =>
      assert SleeperHolds(c, s);
      SameRecord(c, SetSleeper(c, s, ReadDate(c, s)), c.sleepers[s].generation, c.sleepers[s].version);
      MoveKeeps(c, s, ReadDate(c, s));
  }

  lemma {:induction false} EveryRunHolds(states: seq<Clock>, steps: seq<Step>, i: nat)
    requires IsRun(states, steps) && i < |states|
    ensures Inv(states[i])
  {
    if i > 0 {
      EveryRunHolds(states, steps, i - 1);
      StepKeeps(states[i - 1], steps[i - 1]);
    }
  }

  // ----- Theorems -----

  /**
   No clock step is missed: a parked sleeper whose reading is older than the current record has
   been woken, or some call of set_date has written its record and is about to bump.
   */
  lemma NoMissedClockStep(states: seq<Clock>, steps: seq<Step>, i: nat, s: nat)
    requires IsRun(states, steps) && i < |states| && s in states[i].sleepers && states[i].sleepers[s].Parked?
    requires states[i].sleepers[s].reading.version < states[i].version
    ensures states[i].sleepers[s].woken || PendingRecord(states[i], states[i].version)
  {
    EveryRunHolds(states, steps, i);
    assert SleeperHolds(states[i], s);
  }

  /**
   While no call is between its record and its bump, an undisturbed sleeper's timer is exact: the clock reaches the
   target when the timer runs out, up to the time between reading the clock and arming the timer.
   */
  lemma TimerMeetsDeadline(states: seq<Clock>, steps: seq<Step>, i: nat, s: nat)
    requires IsRun(states, steps) && i < |states| && s in states[i].sleepers && states[i].sleepers[s].Parked?
    requires !states[i].sleepers[s].woken
    requires forall r :: r in states[i].setters ==> states[i].setters[r].Began?
    ensures var c, me := states[i], states[i].sleepers[s];
            me.armedAt + Remaining(me) - c.now == me.target - DateAt(c.epoch, c.now) + (me.armedAt - me.reading.at)
  {
    EveryRunHolds(states, steps, i);
    var c, me := states[i], states[i].sleepers[s];
    assert SleeperHolds(c, s);
    assert !PendingRecord(c, c.version);
  }

  /** The registered tokens are those of parked sleepers that have not been woken, and no others. */
  lemma NoStaleRegistration(states: seq<Clock>, steps: seq<Step>, i: nat, t: nat)
    requires IsRun(states, steps) && i < |states|
    ensures t in states[i].wakers.waiters <==>
            exists s :: s in states[i].sleepers && states[i].sleepers[s].Parked?
                        && states[i].sleepers[s].token == t && !states[i].sleepers[s].woken
  {
    EveryRunHolds(states, steps, i);
    var c := states[i];
    if t in c.wakers.waiters {
      var s := c.wakers.waiters[t];
      assert s in c.sleepers && c.sleepers[s].Parked? && c.sleepers[s].token == t && !c.sleepers[s].woken;
    }
    forall s | s in c.sleepers && c.sleepers[s].Parked? && c.sleepers[s].token == t && !c.sleepers[s].woken
      ensures t in c.wakers.waiters
    {
      assert SleeperHolds(c, s);
    }
  }

  /** A sleeper that is woken goes back to the top of its loop at its next poll. */
  lemma WokenSleeperReevaluates(states: seq<Clock>, steps: seq<Step>, i: nat, s: nat)
    requires IsRun(states, steps) && i < |states| && s in states[i].sleepers && states[i].sleepers[s].Parked?
    requires states[i].sleepers[s].woken
    ensures PollSleeper(states[i], s).sleepers[s] == Top(states[i].sleepers[s].target)
  {
    EveryRunHolds(states, steps, i);
    assert SleeperHolds(states[i], s);
  }

  /** The date at the recorded instant is the duration set, without a record the uptime; it runs at time's rate. */
  lemma DateRunsOn(duration: int, instant: int, t: int, u: int)
    ensures DateAt(Some(Epoch(duration, instant)), instant) == duration
    ensures DateAt(None, t) == t
    ensures forall epoch :: DateAt(epoch, u) - DateAt(epoch, t) == u - t
  {
  }

  /** Between its two looks at the shared state a call of `set_date` keeps what it was given and when it began. */
  lemma {:induction false} SetterWaits(states: seq<Clock>, steps: seq<Step>, i: nat, j: nat, setter: nat)
    requires IsRun(states, steps) && i < j < |states| && steps[i].BeginSet? && steps[i].setter == setter
    requires forall k :: i < k < j ==> steps[k] != WriteEpoch(setter)
    ensures setter in states[j].setters
    ensures states[j].setters[setter] == Began(steps[i].duration, if steps[i].timer then Some(states[i].now) else None)
    decreases j
  {
    if i + 1 < j {
      SetterWaits(states, steps, i, j - 1, setter);
    }
  }

  /**
   In every run, whatever happens meanwhile, a call of `set_date` makes the duration it was given the date of the
   moment it began; without a timer it changes nothing.
   */
  lemma SetDateShows(states: seq<Clock>, steps: seq<Step>, i: nat, j: nat, setter: nat, t: int)
    requires IsRun(states, steps) && i < j < |steps| && steps[i].BeginSet? && steps[i].setter == setter
    requires steps[j] == WriteEpoch(setter) && forall k :: i < k < j ==> steps[k] != WriteEpoch(setter)
    ensures steps[i].timer ==> DateAt(states[j + 1].epoch, t) == steps[i].duration + (t - states[i].now)
    ensures !steps[i].timer ==> states[j + 1].epoch == states[j].epoch
  {
    SetterWaits(states, steps, i, j, setter);
  }

  /**
   A parked sleeper polled once its timer has run out, or once a call has bumped the generation since its sample, goes
   back to the top of its loop and its token is gone; polled before either, it stays parked and registered.
   */
  lemma PollActsOnTimer(states: seq<Clock>, steps: seq<Step>, i: nat, s: nat)
    requires IsRun(states, steps) && i < |states| && s in states[i].sleepers && states[i].sleepers[s].Parked?
    ensures var c, me, c' := states[i], states[i].sleepers[s], Apply(states[i], Wake(s));
            var due := c.now >= me.armedAt + (me.target - me.reading.date) || c.generation != me.generation;
            && s in c'.sleepers
            && (due ==> c'.sleepers[s] == Top(me.target) && me.token !in c'.wakers.waiters)
            && (!due ==> c' == c && me.token in c.wakers.waiters)
  {
    EveryRunHolds(states, steps, i);
    assert SleeperHolds(states[i], s);
    var c, me := states[i], states[i].sleepers[s];
    if me.token in c.wakers.waiters {
      assert c.sleepers[c.wakers.waiters[me.token]].token == me.token;
    }
    if c.generation == me.generation {
      assert c.sleepers[s := me.(woken := false)] == c.sleepers;
    }
  }

  /** The turn of the loop that a sleeper at its top takes while nothing else happens: sample, load, read. */
  ghost function TurnOfLoop(c: Clock, s: nat): Clock
    requires s in c.sleepers && c.sleepers[s].Top?
  {
    var c1 := Apply(c, Sample(s));
    var c2 := Apply(c1, LoadEpoch(s));
    Apply(c2, ReadClock(s))
  }

  /** It returns exactly if the date shown has reached its target, and otherwise arms its timer for the rest. */
  lemma TurnReturnsIffReached(c: Clock, s: nat)
    requires s in c.sleepers && c.sleepers[s].Top?
    ensures var c' := TurnOfLoop(c, s);
            var date := if c.epoch.Some? then c.epoch.value.duration + (c.now - c.epoch.value.instant) else c.now;
            && s in c'.sleepers && c'.sleepers[s].target == c.sleepers[s].target
            && (c'.sleepers[s].Returned? <==> date >= c.sleepers[s].target)
            && (!c'.sleepers[s].Returned? ==> c'.sleepers[s].HasRead? && c'.sleepers[s].reading.date == date)
  {
  }

  /** The reading a sleeper returned with reached the target, and was the date by the record it had loaded. */
  lemma ReturnsOnlyWhenReached(states: seq<Clock>, steps: seq<Step>, i: nat, s: nat)
    requires IsRun(states, steps) && i < |steps| && s in states[i + 1].sleepers && states[i + 1].sleepers[s].Returned?
    requires s in states[i].sleepers ==> !states[i].sleepers[s].Returned?
    ensures steps[i] == ReadClock(s) && s in states[i].sleepers && states[i].sleepers[s].Loaded?
    ensures var me, epoch := states[i + 1].sleepers[s], states[i].sleepers[s].epoch;
            && me.reading.date >= me.target && me.reading.at == states[i].now
            && me.reading.date == if epoch.Some? then epoch.value.duration + (states[i].now - epoch.value.instant)
                                  else states[i].now
  {
  }

  ghost predicate ReadsBeforeArming(c: Clock) {
    && (forall s :: s in c.sleepers && c.sleepers[s].HasRead? ==> c.sleepers[s].reading.at <= c.now)
    && (forall s :: s in c.sleepers && c.sleepers[s].Parked? ==> c.sleepers[s].reading.at <= c.sleepers[s].armedAt)
  }

  lemma StepReadsBeforeArming(c: Clock, step: Step)
    requires ReadsBeforeArming(c) && Enabled(c, step)
    ensures ReadsBeforeArming(Apply(c, step))
  {
  }

  lemma {:induction false} EveryRunReadsBeforeArming(states: seq<Clock>, steps: seq<Step>, i: nat)
    requires IsRun(states, steps) && i < |states|
    ensures ReadsBeforeArming(states[i])
  {
    if i > 0 {
      EveryRunReadsBeforeArming(states, steps, i - 1);
      StepReadsBeforeArming(states[i - 1], steps[i - 1]);
    }
  }

  /** With no `set_date` between record and bump, a turn that returns follows the poll at or after the deadline. */
  lemma SleepEndsAtDeadline(states: seq<Clock>, steps: seq<Step>, i: nat, s: nat)
    requires IsRun(states, steps) && i < |states| && s in states[i].sleepers && states[i].sleepers[s].Parked?
    requires !states[i].sleepers[s].woken
    requires forall r :: r in states[i].setters ==> states[i].setters[r].Began?
    requires var me := states[i].sleepers[s];
             states[i].now >= me.armedAt + (me.target - me.reading.date)
    ensures var c := Apply(states[i], Wake(s));
            s in c.sleepers && c.sleepers[s].Top? && TurnOfLoop(c, s).sleepers[s].Returned?
  {
    EveryRunReadsBeforeArming(states, steps, i);
    PollActsOnTimer(states, steps, i, s);
    TimerMeetsDeadline(states, steps, i, s);
    TurnReturnsIffReached(Apply(states[i], Wake(s)), s);
  }

  // ----- In place -----

  /** The shared state with the calls and sleepers at work on it; a method is one lock hold or one look at the time. */
  class ClockSystem {
    var now: int
    var epoch: Option<Epoch>
    var version: nat
    var generation: nat
    const waiters: WakerSet
    var setters: map<nat, Setter>
    var sleepers: map<nat, Sleeper>

    ghost function Current(): Clock
      reads this, waiters
    {
      Clock(now, epoch, version, generation, waiters.State(), setters, sleepers)
    }

    constructor ()
      ensures fresh(waiters) && Current() == Booted
    {
      now, epoch, version, generation, setters, sleepers := 0, None, 0, 0, map[], map[];
      waiters := new WakerSet();
    }

    /** The record of `set_date`, under its own lock. */
    method WriteRecordOf(setter: nat)
      requires Inv(Current()) && Enabled(Current(), WriteEpoch(setter))
      modifies this`epoch, this`version, this`setters
      ensures Current() == Apply(old(Current()), WriteEpoch(setter)) && Inv(Current())
    {
      StepKeeps(Current(), WriteEpoch(setter));
      var Began(duration, instant) := setters[setter];
      var wrote := 0;
      if instant.Some? {
        epoch := Some(Epoch(duration, instant.value));
        version := version + 1;
        wrote := version;
      }
      setters := setters[setter := Wrote(wrote)];
    }

    /** The end of `set_date`: the bump and the wake-up are one hold of the waiters' lock. */
    method NotifySet(setter: nat)
      requires Inv(Current()) && Enabled(Current(), Bump(setter))
      modifies this`generation, this`setters, this`sleepers, waiters
      ensures Current() == Apply(old(Current()), Bump(setter)) && Inv(Current())
      ensures waiters.waiters == map[]
    {
      StepKeeps(Current(), Bump(setter));
      generation := generation + 1;
      var woken := waiters.WakeAll();
      setters := setters - {setter};
      sleepers := map s | s in sleepers ::
        if s in woken && sleepers[s].Parked? then sleepers[s].(woken := true) else sleepers[s];
    }

    /** The second half of `date`: a sleeper that has loaded the record reads the time and compares. */
    method ReadDateOf(s: nat)
      requires Inv(Current()) && Enabled(Current(), ReadClock(s))
      modifies this`sleepers
      ensures Current() == Apply(old(Current()), ReadClock(s)) && Inv(Current())
    {
      StepKeeps(Current(), ReadClock(s));
      var Loaded(target, sampled, record, at) := sleepers[s];
      var date := now;
      if record.Some? {
        date := record.value.duration + (now - record.value.instant);
      }
      var reading := Reading(now, date, at);
      var next := if date >= target then Returned(target, reading) else HasRead(target, sampled, reading);
      sleepers := sleepers[s := next];
    }

    /** The first poll of the raced timer and notification: registered only if no call finished since the sample. */
    method ParkOn(s: nat)
      requires Inv(Current()) && Enabled(Current(), Park(s))
      modifies this`sleepers, waiters
      ensures Current() == Apply(old(Current()), Park(s)) && Inv(Current())
      ensures sleepers[s].Parked? <==> generation == old(sleepers)[s].generation
    {
      StepKeeps(Current(), Park(s));
      var HasRead(target, sampled, reading) := sleepers[s];
      if generation != sampled {
        sleepers := sleepers[s := Top(target)];
      } else {
        var token := waiters.RegisterWaker(s);
        sleepers := sleepers[s := Parked(target, sampled, reading, now, token, false)];
      }
    }

    /** A later poll: the timer first, whose end drops the registration, then the notification. */
    method PollParked(s: nat)
      requires Inv(Current()) && Enabled(Current(), Wake(s))
      modifies this`sleepers, waiters
      ensures Current() == Apply(old(Current()), Wake(s)) && Inv(Current())
    {
      StepKeeps(Current(), Wake(s));
      var me := sleepers[s];
      if now >= me.armedAt + (me.target - me.reading.date) {
        waiters.RemoveToken(me.token);
        sleepers := sleepers[s := Top(me.target)];
      } else if generation != me.generation {
        sleepers := sleepers[s := Top(me.target)];
      } else {
        sleepers := sleepers[s := me.(woken := false)];
      }
    }
  }
}
