/** The multi-producer, single-consumer channel over a condition variable. */
module Channels {
  import opened PageFrames
  import opened WakerSets

  datatype Phase = Fresh | Asleep | Awake | Finished

  /** The receiver's wait, if it has one. */
  datatype Receive = NoReceive | Receive(phase: Phase, token: Option<nat>)

  /** The shared state, the live sender handles, and the history of the channel. */
  datatype Channel<T> = Channel(
    data: seq<T>,
    senders: nat,
    recvGone: bool,
    wakers: Wakers,
    receive: Receive,
    handles: set<nat>,
    accepted: seq<T>,
    received: seq<T>)

  datatype Step<T> =
    | CloneSender(h: nat, copy: nat)
    | DropSender(h: nat)
    | Send(h: nat, x: T)
    | StartReceive
    | PollReceive
    | EndReceive
    | DropReceiver

  datatype Polled<T> = Message(x: T) | Closed | Pending

  function Opened<T>(h: nat): Channel<T> {
    Channel([], 1, false, NoWakers, NoReceive, {h}, [], [])
  }

  predicate Enabled<T>(c: Channel<T>, step: Step<T>) {
    match step
    case CloneSender(h, copy) => h in c.handles && copy !in c.handles
    case DropSender(h) => h in c.handles
    case Send(h, x) => h in c.handles
    case StartReceive => !c.recvGone && c.receive.NoReceive?
    case PollReceive => c.receive.Receive? && !c.receive.phase.Finished? && c.wakers.nextId + 1 < TOKENS
    case EndReceive => c.receive.Receive?
    case DropReceiver => !c.recvGone && c.receive.NoReceive?
  }

  /** What a poll of `recv` finds: a message first, then the end of the channel. */
  function Look<T>(c: Channel<T>): Polled<T> {
    if c.data != [] then Message(c.data[0]) else if c.senders == 0 then Closed else Pending
  }

  ghost function Notify<T>(c: Channel<T>, kind: WakeupType): Channel<T> {
    c.(wakers := Wake(c.wakers, kind),
       receive := if c.receive.Receive? && c.receive.phase.Asleep? && Woken(c.wakers, kind) != {}
                  then c.receive.(phase := Awake) else c.receive)
  }

  function PollRecv<T>(c: Channel<T>): Channel<T>
    requires c.receive.Receive?
  {
    match Look(c)
    case Message(x) =>
      c.(data := c.data[1..], received := c.received + [x], receive := c.receive.(phase := Finished))
    case Closed => c.(receive := c.receive.(phase := Finished))
    case Pending =>
      if c.receive.token.None?
      then c.(wakers := Register(c.wakers, 0), receive := Receive(Asleep, Some(c.wakers.nextId)))
      else c.(receive := c.receive.(phase := Asleep))
  }

  function WithoutSender<T>(c: Channel<T>, h: nat): Channel<T> {
    c.(senders := if c.senders > 0 then c.senders - 1 else 0, handles := c.handles - {h})
  }

  ghost function Apply<T>(c: Channel<T>, step: Step<T>): Channel<T>
    requires Enabled(c, step)
  {
    match step
    case CloneSender(h, copy) => c.(senders := c.senders + 1, handles := c.handles + {copy})
    case DropSender(h) =>
      var c1 := WithoutSender(c, h);
      if c1.senders == 0 then Notify(c1, WakeEvery) else c1
    case Send(h, x) =>
      if c.recvGone then c else Notify(c.(data := c.data + [x], accepted := c.accepted + [x]), WakeFirst)
    case StartReceive => c.(receive := Receive(Fresh, None))
    case PollReceive => PollRecv(c)
    case EndReceive =>
      c.(wakers := if c.receive.token.Some? then Remove(c.wakers, c.receive.token.value) else c.wakers,
         receive := NoReceive)
    case DropReceiver => c.(data := [], recvGone := true)
  }

  ghost predicate IsRun<T>(states: seq<Channel<T>>, steps: seq<Step<T>>, h: nat) {
    && |states| == |steps| + 1
    && states[0] == Opened(h)
    && forall i :: 0 <= i < |steps| ==> Enabled(states[i], steps[i]) && states[i + 1] == Apply(states[i], steps[i])
  }

  /** The one receiver is registered exactly while it sleeps. */
  predicate ReceiveHolds<T>(c: Channel<T>) {
    && (c.receive.Receive? && c.receive.phase.Asleep? ==>
          c.receive.token.Some? && c.wakers.waiters == map[c.receive.token.value := 0])
    && (!(c.receive.Receive? && c.receive.phase.Asleep?) ==> c.wakers.waiters == map[])
    && (c.receive.Receive? && c.receive.phase.Fresh? ==> c.receive.token.None?)
  }

  ghost predicate Inv<T>(c: Channel<T>) {
    && c.senders == |c.handles|
    && (if c.recvGone then c.data == [] && c.receive.NoReceive? else c.accepted == c.received + c.data)
    && ReceiveHolds(c)
    && (c.receive.Receive? && c.receive.phase.Asleep? ==> Look(c).Pending?)
    && (c.receive.Receive? && c.receive.phase.Awake? ==> !Look(c).Pending?)
  }

  /** A wake-up of a set with one waiter empties it. */
  lemma NotifyRouses<T>(c: Channel<T>, kind: WakeupType)
    requires ReceiveHolds(c) && !kind.WakeNone?
    ensures ReceiveHolds(Notify(c, kind))
    ensures !(Notify(c, kind).receive.Receive? && Notify(c, kind).receive.phase.Asleep?)
  {
    if c.receive.Receive? && c.receive.phase.Asleep? {
      var token := c.receive.token.value;
      assert token in c.wakers.waiters;
      assert Taken(c.wakers, kind) == {token};
      assert c.wakers.waiters[token] in Woken(c.wakers, kind);
      assert Wake(c.wakers, kind).waiters == map[];
    } else {
      assert Wake(c.wakers, kind).waiters == map[];
    }
  }

  lemma StepKeeps<T>(c: Channel<T>, step: Step<T>)
    requires Inv(c) && Enabled(c, step)
    ensures Inv(Apply(c, step))
  {
    match step
    case DropSender(h) =>
      assert |c.handles - {h}| == |c.handles| - 1;
      NotifyRouses(WithoutSender(c, h), WakeEvery);
    case Send(h, x) =>
      assert c.received + (c.data + [x]) == c.received + c.data + [x];
      NotifyRouses(c.(data := c.data + [x], accepted := c.accepted + [x]), WakeFirst);
    case PollReceive =>
      if c.data != [] { assert c.received + [c.data[0]] + c.data[1..] == c.received + c.data; }
    case EndReceive => assert Apply(c, step).wakers.waiters == map[];
    case _ =>
  }

  /** Over every run the sender count is exact and messages are received in order, none lost. */
  lemma {:induction false} EveryRunConserves<T>(states: seq<Channel<T>>, steps: seq<Step<T>>, h: nat, i: nat)
    requires IsRun(states, steps, h) && i < |states|
    ensures Inv(states[i])
    ensures states[i].senders == |states[i].handles|
    ensures !states[i].recvGone ==> states[i].accepted == states[i].received + states[i].data
  {
    if i > 0 {
      EveryRunConserves(states, steps, h, i - 1);
      StepKeeps(states[i - 1], steps[i - 1]);
    }
  }

  /** A message is accepted, at the end, exactly while there is a receiver. */
  lemma SendIsAccepted<T>(states: seq<Channel<T>>, steps: seq<Step<T>>, h: nat, i: nat)
    requires IsRun(states, steps, h) && i < |steps| && steps[i].Send?
    ensures states[i + 1].accepted == states[i].accepted + if states[i].recvGone then [] else [steps[i].x]
    ensures states[i + 1].received == states[i].received
  {
  }

  /**
   In every run a poll of `recv` delivers the oldest message accepted and not yet received; if there is none it ends
   when no sender is left and sleeps otherwise.
   */
  lemma PollDeliversOldest<T>(states: seq<Channel<T>>, steps: seq<Step<T>>, h: nat, i: nat)
    requires IsRun(states, steps, h) && i < |steps| && steps[i].PollReceive?
    ensures var c, c' := states[i], states[i + 1];
            var n := |c.received|;
            && n <= |c.accepted| && c'.accepted == c.accepted && c'.receive.Receive?
            && c'.received == c.received + (if n < |c.accepted| then [c.accepted[n]] else [])
            && (c'.receive.phase.Finished? <==> n < |c.accepted| || c.handles == {})
            && (c'.receive.phase.Asleep? <==> n == |c.accepted| && c.handles != {})
  {
    EveryRunConserves(states, steps, h, i);
  }

  /** `recv` ends the stream only when every sender is gone and every accepted message was received. */
  lemma ClosedMeansDrained<T>(states: seq<Channel<T>>, steps: seq<Step<T>>, h: nat, i: nat)
    requires IsRun(states, steps, h) && i < |states| && states[i].receive.Receive?
    ensures Look(states[i]).Closed? <==> states[i].handles == {} && states[i].accepted == states[i].received
  {
    EveryRunConserves(states, steps, h, i);
  }

  /** A receiver is never asleep while there is a message or nobody left to send one. */
  lemma ReceiverNeverStranded<T>(states: seq<Channel<T>>, steps: seq<Step<T>>, h: nat, i: nat)
    requires IsRun(states, steps, h) && i < |states|
    requires states[i].receive.Receive? && states[i].receive.phase.Asleep?
    ensures states[i].data == [] && states[i].handles != {}
  {
    EveryRunConserves(states, steps, h, i);
  }

  // ----- In place -----

  /** A channel with its receiver's future; the handles and the history are there for the proof. */
  class Mpsc<T> {
    var data: seq<T>
    var senders: nat
    var recvGone: bool
    const wakers: WakerSet
    var receive: Receive
    ghost var handles: set<nat>
    ghost var accepted: seq<T>
    ghost var received: seq<T>

    ghost function Current(): Channel<T>
      reads this, wakers
    {
      Channel(data, senders, recvGone, wakers.State(), receive, handles, accepted, received)
    }

    constructor (ghost h: nat)
      ensures fresh(wakers) && Current() == Opened(h) && Inv(Current())
    {
      data, senders, recvGone, receive := [], 1, false, NoReceive;
      wakers := new WakerSet();
      handles, accepted, received := {h}, [], [];
    }

    /** The executor's part of a wake-up: a sleeping receiver is to be polled again. */
    method Rouse(woken: bool)
      modifies this`receive
      ensures receive == if woken && old(receive).Receive? && old(receive).phase.Asleep?
                         then old(receive).(phase := Awake) else old(receive)
    {
      if woken && receive.Receive? && receive.phase.Asleep? {
        receive := receive.(phase := Awake);
      }
    }

    method SendMessage(ghost h: nat, x: T)
      requires Inv(Current()) && Enabled(Current(), Send(h, x))
      modifies this, wakers
      ensures Current() == Apply(old(Current()), Send(h, x)) && Inv(Current())
    {
      StepKeeps(Current(), Send(h, x));
      if recvGone { return; }
      data, accepted := data + [x], accepted + [x];
      NoneWoken(wakers.State(), WakeFirst);
      var woken := wakers.WakeOne();
      Rouse(woken.Some?);
    }

    method AddSender(ghost h: nat, ghost copy: nat)
      requires Inv(Current()) && Enabled(Current(), CloneSender(h, copy))
      modifies this
      ensures Current() == Apply(old(Current()), CloneSender(h, copy)) && Inv(Current())
    {
      StepKeeps(Current(), CloneSender(h, copy));
      senders, handles := senders + 1, handles + {copy};
    }

    /** The count never underflows, and the last sender to go wakes the receiver. */
    method RemoveSender(ghost h: nat)
      requires Inv(Current()) && Enabled(Current(), DropSender(h))
      modifies this, wakers
      ensures Current() == Apply(old(Current()), DropSender(h)) && Inv(Current())
    {
      StepKeeps(Current(), DropSender(h));
      assert handles != {};
      senders, handles := senders - 1, handles - {h};
      if senders == 0 {
        NoneWoken(wakers.State(), WakeEvery);
        var woken := wakers.WakeAll();
        Rouse(woken != {});
      }
    }

    method StartRecv()
      requires Inv(Current()) && Enabled(Current(), StartReceive)
      modifies this
      ensures Current() == Apply(old(Current()), StartReceive) && Inv(Current())
    {
      receive := Receive(Fresh, None);
    }

    /** One poll of `recv`: a message first, then the end of the channel, else asleep and registered once. */
    method PollOnce() returns (r: Polled<T>)
      requires Inv(Current()) && Enabled(Current(), PollReceive)
      modifies this, wakers
      ensures r == Look(old(Current())) && Current() == Apply(old(Current()), PollReceive) && Inv(Current())
    {
      StepKeeps(Current(), PollReceive);
      if data != [] {
        r := Message(data[0]);
        data, received := data[1..], received + [data[0]];
        receive := receive.(phase := Finished);
      } else if senders == 0 {
        r := Closed;
        receive := receive.(phase := Finished);
      } else {
        r := Pending;
        var token := receive.token;
        if token.None? {
          var id := wakers.RegisterWaker(0);
          token := Some(id);
        }
        receive := Receive(Asleep, token);
      }
    }

    /** The future is dropped, done or not, and takes its registration with it. */
    method EndRecv()
      requires Inv(Current()) && Enabled(Current(), EndReceive)
      modifies this, wakers
      ensures Current() == Apply(old(Current()), EndReceive) && Inv(Current())
    {
      StepKeeps(Current(), EndReceive);
      if receive.token.Some? {
        wakers.RemoveToken(receive.token.value);
      }
      receive := NoReceive;
    }

    method CloseReceiver()
      requires Inv(Current()) && Enabled(Current(), DropReceiver)
      modifies this
      ensures Current() == Apply(old(Current()), DropReceiver) && Inv(Current())
    {
      data, recvGone := [], true;
    }
  }

  lemma NoneWoken(w: Wakers, kind: WakeupType)
    requires !kind.WakeNone?
    ensures Woken(w, kind) == {} <==> w.waiters == map[]
  {
    if w.waiters != map[] {
      assert IsFirst(w, First(w));
      assert w.waiters[First(w)] in Woken(w, kind);
    }
  }
}
