/**
 Credentials and capabilities under every sequence of `capset`, the set*id family, bounding-set drops and clone.
 A capability mask is the set of its bits.
 */
module Privileges {

  import opened PageFrames

  const CAP_SETGID: nat := 6
  const CAP_SETUID: nat := 7
  const CAP_SETPCAP: nat := 8
  const CAP_LAST: nat := 40

  const LINUX_CAPABILITY_VERSION_1: nat := 0x19980330
  const LINUX_CAPABILITY_VERSION_3: nat := 0x20080522

  const USIZE_MAX: nat := 0xffff_ffff_ffff_ffff

  type Tid = nat

  type Flags = set<nat>

  // ----- Identities -----

  datatype Ids = Ids(realId: nat, effective: nat, saved: nat)

  function Held(ids: Ids): set<nat> {
    {ids.realId, ids.effective, ids.saved}
  }

  /** The cast of an argument to 32 bits. */
  function Narrow(arg: nat): nat {
    arg % 0x1_0000_0000
  }

  /** The largest argument means no change. */
  function Pick(arg: nat, current: nat): nat {
    if arg == USIZE_MAX then current else Narrow(arg)
  }

  predicate Allowed(ids: Ids, capable: bool, arg: nat) {
    capable || arg == USIZE_MAX || Narrow(arg) in Held(ids)
  }

  /** `setuid` and `setgid`; nothing if not permitted. */
  function SetId(ids: Ids, capable: bool, arg: nat): Option<Ids> {
    var id := Narrow(arg);
    if capable then Some(Ids(id, id, id))
    else if id == ids.realId || id == ids.saved then Some(ids.(effective := id))
    else None
  }

  /** `setreuid` and `setregid`. */
  function SetReId(ids: Ids, capable: bool, realId: nat, effective: nat): Option<Ids> {
    if !Allowed(ids, capable, realId) || !Allowed(ids, capable, effective) then None
    else
      var newEffective := Pick(effective, ids.effective);
      Some(Ids(Pick(realId, ids.realId), newEffective,
               if realId != USIZE_MAX || (effective != USIZE_MAX && newEffective != ids.realId)
               then newEffective else ids.saved))
  }

  /** `setresuid` and `setresgid`. */
  function SetResId(ids: Ids, capable: bool, realId: nat, effective: nat, saved: nat): Option<Ids> {
    if !Allowed(ids, capable, realId) || !Allowed(ids, capable, effective) || !Allowed(ids, capable, saved) then None
    else Some(Ids(Pick(realId, ids.realId), Pick(effective, ids.effective), Pick(saved, ids.saved)))
  }

  datatype IdCall =
    | SetOne(id: nat)
    | SetRe(realId: nat, effective: nat)
    | SetRes(realId: nat, effective: nat, saved: nat)

  function ApplyIds(ids: Ids, capable: bool, call: IdCall): Option<Ids> {
    match call
    case SetOne(id) => SetId(ids, capable, id)
    case SetRe(realId, effective) => SetReId(ids, capable, realId, effective)
    case SetRes(realId, effective, saved) => SetResId(ids, capable, realId, effective, saved)
  }

  /** Without the capability no identity appears that was not held; with it no call is refused. */
  lemma IdsComeFromHeld(ids: Ids, capable: bool, call: IdCall)
    ensures !capable && ApplyIds(ids, capable, call).Some? ==> Held(ApplyIds(ids, capable, call).value) <= Held(ids)
    ensures capable ==> ApplyIds(ids, capable, call).Some?
  {
  }

  /** A field gets the 32 low bits of its own argument, or keeps its value. */
  predicate Given(now: nat, was: nat, arg: nat) {
    now == if arg == 0xffff_ffff_ffff_ffff then was else arg % 0x1_0000_0000
  }

  /** Without the capability an argument must be one of the three identities, or ask for no change. */
  predicate Offered(ids: Ids, arg: nat) {
    var id := arg % 0x1_0000_0000;
    arg == 0xffff_ffff_ffff_ffff || id == ids.realId || id == ids.effective || id == ids.saved
  }

  /** `setres*id`: each argument reaches its own field, under exactly one condition. */
  lemma SetResGives(ids: Ids, capable: bool, realId: nat, effective: nat, saved: nat)
    ensures var after := SetResId(ids, capable, realId, effective, saved);
            && (after.Some? <==> capable || (Offered(ids, realId) && Offered(ids, effective) && Offered(ids, saved)))
            && (after.Some? ==> Given(after.value.realId, ids.realId, realId)
                                && Given(after.value.effective, ids.effective, effective)
                                && Given(after.value.saved, ids.saved, saved))
  {
  }

  /** `setre*id`: the saved one becomes the effective one if the real one is set or the effective one leaves it. */
  lemma SetReGives(ids: Ids, capable: bool, realId: nat, effective: nat)
    ensures var after := SetReId(ids, capable, realId, effective);
            && (after.Some? <==> capable || (Offered(ids, realId) && Offered(ids, effective)))
            && (after.Some? ==>
                  && Given(after.value.realId, ids.realId, realId)
                  && Given(after.value.effective, ids.effective, effective)
                  && after.value.saved
                     == if realId == USIZE_MAX && (effective == USIZE_MAX || after.value.effective == ids.realId)
                        then ids.saved else after.value.effective)
  {
  }

  /** `set*id`: all three with the capability, else the effective one alone and only to the real or saved one. */
  lemma SetOneGives(ids: Ids, capable: bool, arg: nat)
    ensures var after, id := SetId(ids, capable, arg), arg % 0x1_0000_0000;
            && (after.Some? <==> capable || id in {ids.realId, ids.saved})
            && (after.Some? ==> after.value.effective == id
                                && after.value.realId == (if capable then id else ids.realId)
                                && after.value.saved == (if capable then id else ids.saved))
  {
  }

  predicate Words(ids: Ids) {
    ids.realId < 0x1_0000_0000 && ids.effective < 0x1_0000_0000 && ids.saved < 0x1_0000_0000
  }

  /** A task goes back to earlier identities, field by field, exactly if it still holds the three of them. */
  lemma RestoredIffHeld(ids: Ids, now: Ids)
    requires Words(ids)
    ensures SetResId(now, false, ids.realId, ids.effective, ids.saved)
            == if {ids.realId, ids.effective, ids.saved} <= {now.realId, now.effective, now.saved} then Some(ids)
               else None
  {
    assert {ids.realId, ids.effective, ids.saved} <= Held(now) <==>
             ids.realId in Held(now) && ids.effective in Held(now) && ids.saved in Held(now);
  }

  /** The saved identity follows every change that could otherwise be undone through it. */
  lemma SetReForgets(ids: Ids, capable: bool, realId: nat, effective: nat)
    requires realId != USIZE_MAX && SetReId(ids, capable, realId, effective).Some?
    ensures var after := SetReId(ids, capable, realId, effective).value;
            after.saved == after.effective && after.realId == Narrow(realId)
            && (effective == USIZE_MAX ==> after.effective == ids.effective)
  {
  }

  // ----- Capabilities -----

  datatype Capabilities = Capabilities(
    effective: Flags, permitted: Flags, inheritable: Flags, ambient: Flags, bounding: Flags)

  datatype Request = Request(effective: Flags, permitted: Flags, inheritable: Flags)

  /** `Capabilities::set_public` */
  predicate MaySet(caps: Capabilities, caller: Capabilities, want: Request) {
    && want.permitted <= caps.permitted
    && want.effective <= want.permitted
    && (want.inheritable <= caps.bounding || CAP_SETPCAP in caller.effective)
  }

  function SetPublic(caps: Capabilities, want: Request): Capabilities {
    caps.(effective := want.effective, permitted := want.permitted, inheritable := want.inheritable)
  }

  /** A 64-bit mask out of the low and high words of the user's structures; version 1 has the low one alone. */
  function Combine(low: Flags, high: Flags): Flags {
    low + set b | b in high :: b + 32
  }

  datatype UserData = UserData(effective: Flags, permitted: Flags, inheritable: Flags)

  function RequestOf(version: nat, low: UserData, high: UserData): Option<Request> {
    if version == LINUX_CAPABILITY_VERSION_1 then Some(Request(low.effective, low.permitted, low.inheritable))
    else if version == LINUX_CAPABILITY_VERSION_3 then
      Some(Request(Combine(low.effective, high.effective), Combine(low.permitted, high.permitted),
                   Combine(low.inheritable, high.inheritable)))
    else None
  }

  // ----- Tasks -----

  datatype Credentials = Credentials(uids: Ids, gids: Ids, caps: Capabilities)

  datatype Which = Users | Groups

  function IdsOf(creds: Credentials, which: Which): Ids {
    if which.Users? then creds.uids else creds.gids
  }

  function WithIds(creds: Credentials, which: Which, ids: Ids): Credentials {
    if which.Users? then creds.(uids := ids) else creds.(gids := ids)
  }

  function CapOf(which: Which): nat {
    if which.Users? then CAP_SETUID else CAP_SETGID
  }

  /** A call of `capset` that waits for its arguments: the caller's capabilities were copied, the task was found. */
  datatype Call = Call(caller: Capabilities, target: Tid)

  /** Every task created, those that are no longer found by id, and the calls in progress. */
  datatype System = System(tasks: map<Tid, Credentials>, exited: set<Tid>, calls: map<Tid, Call>, nextTid: Tid)

  function FlagsBelow(n: nat): Flags {
    if n == 0 then {} else FlagsBelow(n - 1) + {n - 1}
  }

  function AllFlags(): Flags {
    FlagsBelow(CAP_LAST + 1)
  }

  function RootCredentials(): Credentials {
    Credentials(Ids(0, 0, 0), Ids(0, 0, 0), Capabilities(AllFlags(), AllFlags(), AllFlags(), AllFlags(), AllFlags()))
  }

  function Boot(): System {
    System(map[1 := RootCredentials()], {}, map[], 2)
  }

  datatype Outcome = Done | NotPermitted | NoProcess | InvalidValue

  function SetIds(s: System, t: Tid, which: Which, call: IdCall): (System, Outcome)
    requires t in s.tasks
  {
    var creds := s.tasks[t];
    var ids := ApplyIds(IdsOf(creds, which), CapOf(which) in creds.caps.effective, call);
    if ids.None? then (s, NotPermitted) else (s.(tasks := s.tasks[t := WithIds(creds, which, ids.value)]), Done)
  }

  /** The first part of `sys_capset`; pid 0 is the caller. */
  function BeginCapSet(s: System, t: Tid, pid: Tid): (System, Outcome)
    requires t in s.tasks
  {
    var caps, target := s.tasks[t].caps, if pid == 0 then t else pid;
    if pid != 0 && CAP_SETPCAP !in caps.effective then (s, NotPermitted)
    else if target !in s.tasks || target in s.exited then (s, NoProcess)
    else (s.(calls := s.calls[t := Call(caps, target)]), Done)
  }

  /** The rest of it, once the arguments are copied in; the call keeps a target that exits meanwhile. */
  function FinishCapSet(s: System, t: Tid, version: nat, low: UserData, high: UserData): (System, Outcome)
    requires t in s.calls && s.calls[t].target in s.tasks
  {
    var Call(caller, target) := s.calls[t];
    var s1 := s.(calls := s.calls - {t});
    var want := RequestOf(version, low, high);
    if want.None? then (s1, InvalidValue)
    else
      var creds := s.tasks[target];
      if !MaySet(creds.caps, caller, want.value) then (s1, NotPermitted)
      else (s1.(tasks := s.tasks[target := creds.(caps := SetPublic(creds.caps, want.value))]), Done)
  }

  /** A task drops one capability from its bounding set; the shift takes its number modulo 64. */
  function DropBounding(s: System, t: Tid, cap: nat): (System, Outcome)
    requires t in s.tasks
  {
    var bit := cap % 64;
    if bit > CAP_LAST then (s, InvalidValue)
    else
      var caps := s.tasks[t].caps;
      (s.(tasks := s.tasks[t := s.tasks[t].(caps := caps.(bounding := caps.bounding - {bit}))]), Done)
  }

  // ----- What a call of `capset` gives -----

  /** Bit `b` of a mask that the user passes as one 32-bit word (version 1) or two (version 3). */
  predicate Bit(version: nat, low: Flags, high: Flags, b: nat) {
    b in low || (version == 0x2008_0522 && b >= 32 && b - 32 in high)
  }

  /** The three masks of `caps` are those passed. */
  ghost predicate HasBits(caps: Capabilities, version: nat, low: UserData, high: UserData) {
    forall b: nat ::
      && (b in caps.effective <==> Bit(version, low.effective, high.effective, b))
      && (b in caps.permitted <==> Bit(version, low.permitted, high.permitted, b))
      && (b in caps.inheritable <==> Bit(version, low.inheritable, high.inheritable, b))
  }

  ghost predicate MayHave(caps: Capabilities, setPcap: bool, version: nat, low: UserData, high: UserData) {
    forall b: nat ::
      && (Bit(version, low.permitted, high.permitted, b) ==> b in caps.permitted)
      && (Bit(version, low.effective, high.effective, b) ==> Bit(version, low.permitted, high.permitted, b))
      && (Bit(version, low.inheritable, high.inheritable, b) ==> setPcap || b in caps.bounding)
  }

  lemma RequestHasBits(version: nat, low: UserData, high: UserData)
    ensures RequestOf(version, low, high).Some? <==> version == 0x1998_0330 || version == 0x2008_0522
    ensures RequestOf(version, low, high).Some? ==>
              var want := RequestOf(version, low, high).value;
              HasBits(Capabilities(want.effective, want.permitted, want.inheritable, {}, {}), version, low, high)
  {
    if version == 0x2008_0522 {
      CombineBits(low.effective, high.effective);
      CombineBits(low.permitted, high.permitted);
      CombineBits(low.inheritable, high.inheritable);
    }
  }

  lemma CombineBits(low: Flags, high: Flags)
    ensures forall b: nat :: b in Combine(low, high) <==> b in low || (b >= 32 && b - 32 in high)
  {
    forall b: nat ensures b in Combine(low, high) <==> b in low || (b >= 32 && b - 32 in high) {
      if b >= 32 && b - 32 in high {
        assert (b - 32) + 32 in set x | x in high :: x + 32;
      }
    }
  }

  lemma MaySetIsMayHave(caps: Capabilities, caller: Capabilities, version: nat, low: UserData, high: UserData)
    requires RequestOf(version, low, high).Some?
    ensures MaySet(caps, caller, RequestOf(version, low, high).value)
            <==> MayHave(caps, CAP_SETPCAP in caller.effective, version, low, high)
  {
    RequestHasBits(version, low, high);
    var want := RequestOf(version, low, high).value;
    var asked := Capabilities(want.effective, want.permitted, want.inheritable, {}, {});
    assert HasBits(asked, version, low, high);
    forall b: nat ensures
        && (b in want.effective <==> Bit(version, low.effective, high.effective, b))
        && (b in want.permitted <==> Bit(version, low.permitted, high.permitted, b))
        && (b in want.inheritable <==> Bit(version, low.inheritable, high.inheritable, b)) {
      assert b in asked.effective <==> b in want.effective;
    }
  }

  /**
   The target ends up with the three masks passed, bit for bit, and keeps all else, exactly if the version is known
   and the target may have them; otherwise, and for every other task, nothing changes. The call is over either way.
   */
  lemma CapSetGives(s: System, t: Tid, version: nat, low: UserData, high: UserData)
    requires t in s.calls && s.calls[t].target in s.tasks
    ensures var (s', outcome), target := FinishCapSet(s, t, version, low, high), s.calls[t].target;
            var was, setPcap := s.tasks[target], 8 in s.calls[t].caller.effective;
            && s'.calls == s.calls - {t} && s'.exited == s.exited && s'.tasks.Keys == s.tasks.Keys
            && (outcome == InvalidValue <==> version != 0x1998_0330 && version != 0x2008_0522)
            && (outcome == Done <==> outcome != InvalidValue && MayHave(was.caps, setPcap, version, low, high))
            && (outcome == Done || outcome == NotPermitted || outcome == InvalidValue)
            && (forall u :: u in s.tasks && (u != target || outcome != Done) ==> s'.tasks[u] == s.tasks[u])
            && (outcome == Done ==>
                  var now := s'.tasks[target];
                  && HasBits(now.caps, version, low, high)
                  && now.uids == was.uids && now.gids == was.gids
                  && now.caps.ambient == was.caps.ambient && now.caps.bounding == was.caps.bounding)
  {
    RequestHasBits(version, low, high);
    var (s', outcome) := FinishCapSet(s, t, version, low, high);
    var Call(caller, target) := s.calls[t];
    if outcome != InvalidValue {
      MaySetIsMayHave(s.tasks[target].caps, caller, version, low, high);
      var want := RequestOf(version, low, high).value;
      var asked := Capabilities(want.effective, want.permitted, want.inheritable, {}, {});
      if outcome == Done {
        var now := s'.tasks[target].caps;
        assert now.effective == asked.effective && now.permitted == asked.permitted;
        assert now.inheritable == asked.inheritable;
      }
    }
  }

  /** A call on oneself is never refused; one on another needs `CAP_SETPCAP` first and a task that is found second. */
  lemma CapSetBegins(s: System, t: Tid, pid: Tid)
    requires t in s.tasks && t !in s.exited
    ensures var (s', outcome) := BeginCapSet(s, t, pid);
            && s'.tasks == s.tasks && s'.exited == s.exited
            && outcome == (if pid == 0 then Done else if 8 !in s.tasks[t].caps.effective then NotPermitted
                           else if pid in s.tasks && pid !in s.exited then Done else NoProcess)
            && s'.calls == if outcome == Done then s.calls[t := Call(s.tasks[t].caps, if pid == 0 then t else pid)]
                           else s.calls
  {
  }

  /** A call for user ids leaves the groups alone and asks for `CAP_SETUID`; one for group ids the other way round. */
  lemma IdsCallGives(s: System, t: Tid, which: Which, call: IdCall)
    requires t in s.tasks
    ensures var (s', outcome), was := SetIds(s, t, which, call), s.tasks[t];
            && s'.tasks.Keys == s.tasks.Keys && s'.calls == s.calls && s'.exited == s.exited
            && (forall u :: u in s.tasks && u != t ==> s'.tasks[u] == s.tasks[u])
            && s'.tasks[t].caps == was.caps && (outcome == Done || outcome == NotPermitted)
            && (outcome == NotPermitted ==> s' == s)
            && (which.Users? ==>
                  var ids := ApplyIds(was.uids, 7 in was.caps.effective, call);
                  s'.tasks[t].gids == was.gids
                  && (outcome == Done <==> ids.Some?) && (outcome == Done ==> s'.tasks[t].uids == ids.value))
            && (which.Groups? ==>
                  var ids := ApplyIds(was.gids, 6 in was.caps.effective, call);
                  s'.tasks[t].uids == was.uids
                  && (outcome == Done <==> ids.Some?) && (outcome == Done ==> s'.tasks[t].gids == ids.value))
  {
  }

  /** A drop takes that one capability out of the caller's bounding set and nothing else. */
  lemma DropGives(s: System, t: Tid, cap: nat)
    requires t in s.tasks
    ensures var (s', outcome), was := DropBounding(s, t, cap), s.tasks[t];
            && (outcome == Done <==> cap % 64 <= 40) && (outcome != Done ==> outcome == InvalidValue && s' == s)
            && s'.tasks.Keys == s.tasks.Keys && (forall u :: u in s.tasks && u != t ==> s'.tasks[u] == s.tasks[u])
            && (outcome == Done ==>
                  && s'.tasks[t] == was.(caps := was.caps.(bounding := s'.tasks[t].caps.bounding))
                  && forall b: nat :: b in s'.tasks[t].caps.bounding <==> b in was.caps.bounding && b != cap % 64)
  {
  }

  // ----- Runs -----

  datatype Step =
    | DoIds(t: Tid, which: Which, call: IdCall)
    | DoBeginCapSet(t: Tid, pid: Tid)
    | DoFinishCapSet(t: Tid, version: nat, low: UserData, high: UserData)
    | DoDropBounding(t: Tid, cap: nat)
    | DoClone(t: Tid)
    | DoExit(t: Tid)

  /** A task that waits inside `capset` does nothing else. */
  ghost predicate Enabled(s: System, step: Step) {
    && step.t in s.tasks && step.t !in s.exited
    && (step.t in s.calls <==> step.DoFinishCapSet?)
    && (step.DoFinishCapSet? ==> s.calls[step.t].target in s.tasks)
  }

  ghost function Apply(s: System, step: Step): System
    requires Enabled(s, step)
  {
    match step
    case DoIds(t, which, call) => SetIds(s, t, which, call).0
    case DoBeginCapSet(t, pid) => BeginCapSet(s, t, pid).0
    case DoFinishCapSet(t, version, low, high) => FinishCapSet(s, t, version, low, high).0
    case DoDropBounding(t, cap) => DropBounding(s, t, cap).0
    case DoClone(t) => s.(tasks := s.tasks[s.nextTid := s.tasks[t]], nextTid := s.nextTid + 1)
    case DoExit(t) => s.(exited := s.exited + {t})
  }

  ghost predicate IsRun(states: seq<System>, steps: seq<Step>) {
    && |states| == |steps| + 1 && states[0] == Boot()
    && (forall i :: 0 <= i < |steps| ==> Enabled(states[i], steps[i]) && states[i + 1] == Apply(states[i], steps[i]))
  }

  /** Whom a task's credentials come from in the state before a step: its parent if the step made it, else itself. */
  ghost function Source(s: System, step: Step, t: Tid): Tid {
    if step.DoClone? && s.nextTid == t then step.t else t
  }

  /** `q` is `p` or one of its descendants cloned between states `i` and `j`. */
  ghost predicate Descends(states: seq<System>, steps: seq<Step>, i: nat, j: nat, p: Tid, q: Tid)
    requires IsRun(states, steps) && i <= j < |states|
    decreases j
  {
    if i == j then p == q else Descends(states, steps, i, j - 1, p, Source(states[j - 1], steps[j - 1], q))
  }

  // ----- Privilege is monotone -----

  /** What a step may do to one task's credentials. */
  ghost predicate NoMorePrivilege(before: Credentials, after: Credentials) {
    && after.caps.permitted <= before.caps.permitted
    && after.caps.bounding <= before.caps.bounding
    && (before.caps.effective <= before.caps.permitted ==> after.caps.effective <= after.caps.permitted)
    && (forall which :: CapOf(which) !in before.caps.effective ==>
                          Held(IdsOf(after, which)) <= Held(IdsOf(before, which)))
  }

  lemma StepIsMonotone(s: System, step: Step, t: Tid)
    requires Enabled(s, step) && t in Apply(s, step).tasks
    ensures Source(s, step, t) in s.tasks && NoMorePrivilege(s.tasks[Source(s, step, t)], Apply(s, step).tasks[t])
  {
    if step.DoIds? {
      var creds := s.tasks[step.t];
      IdsComeFromHeld(IdsOf(creds, step.which), CapOf(step.which) in creds.caps.effective, step.call);
    }
  }

  /** In every run, the effective capabilities of every task stay within the permitted ones. */
  lemma {:induction false} EffectiveWithinPermitted(states: seq<System>, steps: seq<Step>, i: nat, t: Tid)
    requires IsRun(states, steps) && i < |states| && t in states[i].tasks
    ensures states[i].tasks[t].caps.effective <= states[i].tasks[t].caps.permitted
  {
    if i > 0 {
      StepIsMonotone(states[i - 1], steps[i - 1], t);
      EffectiveWithinPermitted(states, steps, i - 1, Source(states[i - 1], steps[i - 1], t));
    }
  }

  /**
   From any moment on, a task and its descendants have no more permitted or bounding capabilities than the task had;
   once `CAP_SETUID` is gone from permitted, every uid they ever have is one of the three held then; likewise gids
   and `CAP_SETGID`.
   */
  lemma {:induction false} PrivilegeOnlyShrinks(states: seq<System>, steps: seq<Step>, i: nat, j: nat, p: Tid, q: Tid)
    requires IsRun(states, steps) && i <= j < |states|
    requires p in states[i].tasks && q in states[j].tasks && Descends(states, steps, i, j, p, q)
    ensures var was, has := states[i].tasks[p], states[j].tasks[q];
            && has.caps.permitted <= was.caps.permitted && has.caps.bounding <= was.caps.bounding
            && (CAP_SETUID !in was.caps.permitted ==> Held(has.uids) <= Held(was.uids))
            && (CAP_SETGID !in was.caps.permitted ==> Held(has.gids) <= Held(was.gids))
    decreases j
  {
    if i < j {
      var from := Source(states[j - 1], steps[j - 1], q);
      StepIsMonotone(states[j - 1], steps[j - 1], q);
      PrivilegeOnlyShrinks(states, steps, i, j - 1, p, from);
      EffectiveWithinPermitted(states, steps, j - 1, from);
      var before, after := states[j - 1].tasks[from], states[j].tasks[q];
      assert CapOf(Users) !in before.caps.effective ==> Held(IdsOf(after, Users)) <= Held(IdsOf(before, Users));
      assert CapOf(Groups) !in before.caps.effective ==> Held(IdsOf(after, Groups)) <= Held(IdsOf(before, Groups));
    }
  }

  lemma {:induction false} TidsBelowNext(states: seq<System>, steps: seq<Step>, i: nat, t: Tid)
    requires IsRun(states, steps) && i < |states| && t in states[i].tasks
    ensures t < states[i].nextTid
  {
    if i > 0 && t in states[i - 1].tasks {
      TidsBelowNext(states, steps, i - 1, t);
    }
  }

  /** A clone starts with exactly its caller's credentials, under an id that no task has had; no other task changes. */
  lemma CloneCopies(states: seq<System>, steps: seq<Step>, i: nat)
    requires IsRun(states, steps) && i < |steps| && steps[i].DoClone?
    ensures var child, caller := states[i].nextTid, steps[i].t;
            && child !in states[i].tasks && caller in states[i].tasks
            && states[i + 1].tasks == states[i].tasks[child := states[i].tasks[caller]]
            && states[i + 1].calls == states[i].calls && states[i + 1].exited == states[i].exited
  {
    if states[i].nextTid in states[i].tasks {
      TidsBelowNext(states, steps, i, states[i].nextTid);
    }
  }

  /** In every run a task that has exited is never found again. */
  lemma ExitedNotFound(states: seq<System>, steps: seq<Step>, i: nat, j: nat, u: Tid)
    requires IsRun(states, steps) && i < j < |states| && steps[i].DoExit?
    requires u in states[j].tasks && u !in states[j].exited
    ensures BeginCapSet(states[j], u, steps[i].t).1
            == if 8 in states[j].tasks[u].caps.effective then NoProcess else NotPermitted
  {
    StaysExited(states, steps, i, j);
    NoTaskZero(states, steps, i);
  }

  lemma {:induction false} NoTaskZero(states: seq<System>, steps: seq<Step>, i: nat)
    requires IsRun(states, steps) && i < |states|
    ensures 0 !in states[i].tasks && states[i].nextTid > 0
  {
    if i > 0 {
      NoTaskZero(states, steps, i - 1);
    }
  }

  lemma {:induction false} StaysExited(states: seq<System>, steps: seq<Step>, i: nat, j: nat)
    requires IsRun(states, steps) && i < j < |states| && steps[i].DoExit?
    ensures steps[i].t in states[j].exited
    decreases j
  {
    if i + 1 < j {
      StaysExited(states, steps, i, j - 1);
    }
  }

  /** Nothing but its own end stops a call: its target is always there. */
  lemma {:induction false} TargetsStay(states: seq<System>, steps: seq<Step>, i: nat, t: Tid)
    requires IsRun(states, steps) && i < |states| && t in states[i].calls
    ensures states[i].calls[t].target in states[i].tasks && t in states[i].tasks && t !in states[i].exited
  {
    if t in states[i - 1].calls {
      TargetsStay(states, steps, i - 1, t);
    }
  }

  /** Step `k` is the beginning of the call that `t` is in at state `i`, with the capabilities it had then. */
  ghost predicate BeganAt(states: seq<System>, steps: seq<Step>, i: nat, t: Tid, k: nat) {
    && k < i < |states| && i <= |steps| && t in states[i].calls && t in states[k].tasks
    && steps[k].DoBeginCapSet? && steps[k].t == t
    && states[k].tasks[t].caps == states[i].calls[t].caller
    && (states[i].calls[t].target == t || CAP_SETPCAP in states[k].tasks[t].caps.effective)
  }

  lemma {:induction false} CallBegan(states: seq<System>, steps: seq<Step>, i: nat, t: Tid) returns (k: nat)
    requires IsRun(states, steps) && i < |states| && t in states[i].calls
    ensures BeganAt(states, steps, i, t, k)
  {
    if steps[i - 1].DoBeginCapSet? && steps[i - 1].t == t {
      k := i - 1;
    } else {
      k := CallBegan(states, steps, i - 1, t);
    }
  }

  /**
   In every run, another task's credentials change only at the end of a `capset` whose caller held `CAP_SETPCAP` in
   its effective set when the call began, and then only its capabilities.
   */
  lemma OthersNeedSetPcap(states: seq<System>, steps: seq<Step>, i: nat, t: Tid) returns (k: nat)
    requires IsRun(states, steps) && i < |steps| && t != steps[i].t && t in states[i].tasks
    requires states[i + 1].tasks[t] != states[i].tasks[t]
    ensures steps[i].DoFinishCapSet? && BeganAt(states, steps, i, steps[i].t, k)
    ensures CAP_SETPCAP in states[k].tasks[steps[i].t].caps.effective
    ensures states[i + 1].tasks[t].uids == states[i].tasks[t].uids
    ensures states[i + 1].tasks[t].gids == states[i].tasks[t].gids
  {
    TidsBelowNext(states, steps, i, t);
    k := CallBegan(states, steps, i, steps[i].t);
  }

  // ----- In place -----

  /** The credentials of all tasks; every call keeps what each of them may not exceed. */
  class TaskTable {
    var tasks: map<Tid, Credentials>
    var exited: set<Tid>
    var calls: map<Tid, Call>
    var nextTid: Tid

    function Current(): System
      reads this
    {
      System(tasks, exited, calls, nextTid)
    }

    constructor ()
      ensures Current() == Boot()
    {
      tasks, exited, calls, nextTid := map[1 := RootCredentials()], {}, map[], 2;
    }

    /** `sys_setuid`, `sys_setgid` */
    method SetOneId(t: Tid, which: Which, arg: nat) returns (ok: bool)
      requires Enabled(Current(), DoIds(t, which, SetOne(arg)))
      modifies this`tasks
      ensures Current() == Apply(old(Current()), DoIds(t, which, SetOne(arg)))
      ensures tasks.Keys == old(tasks).Keys && forall u :: u in tasks ==> NoMorePrivilege(old(tasks)[u], tasks[u])
      ensures ok <==> SetIds(old(Current()), t, which, SetOne(arg)).1 == Done
    {
      AllMonotone(Current(), DoIds(t, which, SetOne(arg)));
      var creds := tasks[t];
      var ids := IdsOf(creds, which);
      var id := arg % 0x1_0000_0000;
      if CapOf(which) in creds.caps.effective {
        ids := Ids(id, id, id);
      } else {
        if id != ids.realId && id != ids.saved { return false; }
        ids := ids.(effective := id);
      }
      tasks := tasks[t := WithIds(creds, which, ids)];
      return true;
    }

    /** `sys_setreuid`, `sys_setregid` */
    method SetTwoIds(t: Tid, which: Which, newReal: nat, newEffective: nat) returns (ok: bool)
      requires Enabled(Current(), DoIds(t, which, SetRe(newReal, newEffective)))
      modifies this`tasks
      ensures Current() == Apply(old(Current()), DoIds(t, which, SetRe(newReal, newEffective)))
      ensures tasks.Keys == old(tasks).Keys && forall u :: u in tasks ==> NoMorePrivilege(old(tasks)[u], tasks[u])
      ensures ok <==> SetIds(old(Current()), t, which, SetRe(newReal, newEffective)).1 == Done
    {
      AllMonotone(Current(), DoIds(t, which, SetRe(newReal, newEffective)));
      var creds := tasks[t];
      var Ids(r, e, s) := IdsOf(creds, which);
      var r', e' := Pick(newReal, r), Pick(newEffective, e);
      if CapOf(which) !in creds.caps.effective {
        if newReal != USIZE_MAX && r' != r && r' != e && r' != s { return false; }
        if newEffective != USIZE_MAX && e' != r && e' != e && e' != s { return false; }
      }
      var s' := if newReal != USIZE_MAX || (newEffective != USIZE_MAX && e' != r) then e' else s;
      tasks := tasks[t := WithIds(creds, which, Ids(r', e', s'))];
      return true;
    }

    /** `sys_setresuid`, `sys_setresgid` */
    method SetThreeIds(t: Tid, which: Which, newReal: nat, newEffective: nat, newSaved: nat) returns (ok: bool)
      requires Enabled(Current(), DoIds(t, which, SetRes(newReal, newEffective, newSaved)))
      modifies this`tasks
      ensures Current() == Apply(old(Current()), DoIds(t, which, SetRes(newReal, newEffective, newSaved)))
      ensures tasks.Keys == old(tasks).Keys && forall u :: u in tasks ==> NoMorePrivilege(old(tasks)[u], tasks[u])
      ensures ok <==> SetIds(old(Current()), t, which, SetRes(newReal, newEffective, newSaved)).1 == Done
    {
      AllMonotone(Current(), DoIds(t, which, SetRes(newReal, newEffective, newSaved)));
      var creds := tasks[t];
      var Ids(r, e, s) := IdsOf(creds, which);
      var r', e', s' := Pick(newReal, r), Pick(newEffective, e), Pick(newSaved, s);
      if CapOf(which) !in creds.caps.effective {
        if newReal != USIZE_MAX && r' != r && r' != e && r' != s { return false; }
        if newEffective != USIZE_MAX && e' != r && e' != e && e' != s { return false; }
        if newSaved != USIZE_MAX && s' != r && s' != e && s' != s { return false; }
      }
      tasks := tasks[t := WithIds(creds, which, Ids(r', e', s'))];
      return true;
    }

    /** The end of `sys_capset`, with `set_public` on the target. */
    method EndCapSet(t: Tid, version: nat, low: UserData, high: UserData) returns (r: Outcome)
      requires Enabled(Current(), DoFinishCapSet(t, version, low, high))
      modifies this`tasks, this`calls
      ensures Current() == Apply(old(Current()), DoFinishCapSet(t, version, low, high))
      ensures tasks.Keys == old(tasks).Keys && forall u :: u in tasks ==> NoMorePrivilege(old(tasks)[u], tasks[u])
      ensures r == FinishCapSet(old(Current()), t, version, low, high).1
    {
      AllMonotone(Current(), DoFinishCapSet(t, version, low, high));
      var Call(caller, target) := calls[t];
      calls := calls - {t};
      var want := RequestOf(version, low, high);
      if want.None? { return InvalidValue; }
      var Request(effective, permitted, inheritable) := want.value;
      var caps := tasks[target].caps;
      if !(permitted <= caps.permitted) || !(effective <= permitted)
         || (!(inheritable <= caps.bounding) && CAP_SETPCAP !in caller.effective) {
        return NotPermitted;
      }
      caps := caps.(effective := effective, permitted := permitted, inheritable := inheritable);
      tasks := tasks[target := tasks[target].(caps := caps)];
      return Done;
    }
  }

  lemma AllMonotone(s: System, step: Step)
    requires Enabled(s, step) && (step.DoIds? || step.DoFinishCapSet?)
    ensures var after := Apply(s, step);
            after.tasks.Keys == s.tasks.Keys && forall u :: u in s.tasks ==> NoMorePrivilege(s.tasks[u], after.tasks[u])
  {
    forall u | u in s.tasks ensures NoMorePrivilege(s.tasks[u], Apply(s, step).tasks[u]) {
      StepIsMonotone(s, step, u);
    }
  }
}
