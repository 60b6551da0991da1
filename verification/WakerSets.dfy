/** Sets of registered wakers, and the future that waits on one until a condition holds. */
module WakerSets {
  import opened PageFrames

  /** Tokens are 64-bit and wrap. */
  const TOKENS: nat := 0x1_0000_0000_0000_0000

  /** Wakers by token; a waker is named by the future it belongs to. */
  datatype Wakers = Wakers(waiters: map<nat, nat>, nextId: nat)

  const NoWakers := Wakers(map[], 0)

  datatype WakeupType = WakeNone | WakeFirst | WakeEvery

  function Register(w: Wakers, waker: nat): Wakers {
    Wakers(w.waiters[w.nextId := waker], (w.nextId + 1) % TOKENS)
  }

  function Remove(w: Wakers, token: nat): Wakers {
    w.(waiters := w.waiters - {token})
  }

  ghost predicate IsFirst(w: Wakers, token: nat) {
    token in w.waiters && forall t :: t in w.waiters ==> token <= t
  }

  lemma FirstExists(w: Wakers)
    requires w.waiters != map[]
    ensures exists t :: IsFirst(w, t)
  {
    var t := LowestOf(w.waiters.Keys);
    assert IsFirst(w, t);
  }

  lemma LowestOf(s: set<nat>) returns (t: nat)
    requires s != {}
    ensures t in s && forall u :: u in s ==> t <= u
    decreases |s|
  {
    t :| t in s;
    if s != {t} {
      assert s == (s - {t}) + {t};
      var rest := LowestOf(s - {t});
      if rest < t { t := rest; }
    }
  }

  /** The lowest token, which was registered first. */
  ghost function First(w: Wakers): nat
    requires w.waiters != map[]
    ensures IsFirst(w, First(w))
  {
    FirstExists(w);
    var t :| IsFirst(w, t);
    t
  }

  /** The tokens a wake-up takes out of the set. */
  ghost function Taken(w: Wakers, kind: WakeupType): set<nat> {
    match kind
    case WakeNone => {}
    case WakeFirst => if w.waiters == map[] then {} else {First(w)}
    case WakeEvery => w.waiters.Keys
  }

  ghost function Wake(w: Wakers, kind: WakeupType): Wakers {
    w.(waiters := w.waiters - Taken(w, kind))
  }

  /** The futures whose wakers a wake-up calls. */
  ghost function Woken(w: Wakers, kind: WakeupType): set<nat> {
    set t | t in Taken(w, kind) && t in w.waiters :: w.waiters[t]
  }

  /** Whoever waits longest is woken first: a later registration does not come before those there already. */
  lemma LongestWaitingFirst(w: Wakers, waker: nat)
    requires w.nextId < TOKENS && forall t :: t in w.waiters ==> t < w.nextId
    ensures var longer := Register(w, waker);
            && w.nextId in longer.waiters && longer.waiters[w.nextId] == waker
            && Woken(longer, WakeFirst) == (if w.waiters == map[] then {waker} else Woken(w, WakeFirst))
            && (w.waiters != map[] ==> w.nextId in Wake(longer, WakeFirst).waiters)
            && |Woken(w, WakeFirst)| <= 1
  {
    var longer := Register(w, waker);
    assert w.nextId in longer.waiters;
    if w.waiters != map[] {
      assert IsFirst(longer, First(w)) && First(longer) == First(w);
      assert Woken(w, WakeFirst) == {w.waiters[First(w)]} == Woken(longer, WakeFirst);
    } else {
      assert First(longer) == w.nextId;
      assert Woken(longer, WakeFirst) == {waker};
      assert Woken(w, WakeFirst) == {};
    }
  }

  /** The set as it is kept under its lock. */
  class WakerSet {
    var waiters: map<nat, nat>
    var nextId: nat

    ghost function State(): Wakers
      reads this
    {
      Wakers(waiters, nextId)
    }

    constructor ()
      ensures State() == NoWakers
    {
      waiters, nextId := map[], 0;
    }

    /** A registration adds one entry exactly when its token is not in use. */
    method RegisterWaker(waker: nat) returns (token: nat)
      modifies this
      ensures token == old(nextId) && State() == Register(old(State()), waker)
      ensures |waiters| == |old(waiters)| + 1 <==> token !in old(waiters)
    {
      token := nextId;
      nextId := (nextId + 1) % TOKENS;
      var before := waiters;
      waiters := waiters[token := waker];
      assert waiters.Keys == before.Keys + {token};
    }

    method RemoveToken(token: nat)
      modifies this`waiters
      ensures State() == Remove(old(State()), token)
      ensures forall t :: t != token ==> (t in waiters <==> t in old(waiters))
    {
      waiters := waiters - {token};
    }

    /** Wakes the waiter with the lowest token, if there is one. */
    method WakeOne() returns (woken: Option<nat>)
      modifies this`waiters
      ensures State() == Wake(old(State()), WakeFirst)
      ensures woken.None? <==> old(waiters) == map[]
      ensures woken.Some? ==> Woken(old(State()), WakeFirst) == {woken.value}
    {
      if waiters == map[] {
        return None;
      }
      FirstExists(State());
      var token :| token in waiters && forall t :: t in waiters ==> token <= t;
      woken := Some(waiters[token]);
      waiters := waiters - {token};
    }

    /** Wakes every waiter and empties the set. */
    method WakeAll() returns (woken: set<nat>)
      modifies this`waiters
      ensures State() == Wake(old(State()), WakeEvery) && waiters == map[]
      ensures woken == Woken(old(State()), WakeEvery)
    {
      woken := set t | t in waiters :: waiters[t];
      waiters := map[];
    }
  }
}
