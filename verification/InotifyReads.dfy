/** Reading an inotify descriptor: whole events, framed so that a reader recovers them. */
module InotifyReads {

  import opened PageFrames
  import opened LittleEndian
  import opened NulTerminated
  import opened Inotify

  const HEADER: nat := 16
  const U32: nat := 0x1_0000_0000

  // ----- Framing -----

  /** A name with its terminator, padded to a multiple of four. */
  function EncodeName(name: seq<Byte>): (bytes: seq<Byte>)
    ensures |bytes| % 4 == 0 && |name| < |bytes| <= |name| + 4
  {
    var padded := (|name| + 1 + 3) / 4 * 4;
    seq(padded, i requires 0 <= i < padded => if i < |name| then name[i] else 0)
  }

  function NameBytes(what: Happening): seq<Byte> {
    if what.name.Some? then EncodeName(what.name.value) else []
  }

  function TotalLen(e: QueuedEvent): (n: nat)
    ensures n >= HEADER
  {
    HEADER + |NameBytes(e.what)|
  }

  /** A signed 32-bit number as its unsigned bit pattern. */
  function Unsigned(wd: int): nat
    requires -0x8000_0000 <= wd <= I32_MAX
  {
    if wd < 0 then wd + U32 else wd
  }

  function Signed(w: nat): int {
    if w > I32_MAX then w - U32 else w
  }

  function MaskOf(w: nat): bv32 {
    if w < U32 then w as bv32 else 0
  }

  /** An event that the header's fields can carry, with a name that its terminator ends. */
  ghost predicate Carried(e: QueuedEvent) {
    && -0x8000_0000 <= e.wd <= I32_MAX
    && e.what.cookie < U32
    && |NameBytes(e.what)| < U32
    && (e.what.name.Some? ==> 0 !in e.what.name.value)
  }

  function Header(e: QueuedEvent): (bytes: seq<Byte>)
    requires -0x8000_0000 <= e.wd <= I32_MAX
    ensures |bytes| == HEADER
  {
    Encode(Unsigned(e.wd), 4) + Encode(e.what.mask as nat, 4)
    + Encode(e.what.cookie, 4) + Encode(|NameBytes(e.what)| % U32, 4)
  }

  function Wire(e: QueuedEvent): (bytes: seq<Byte>)
    requires -0x8000_0000 <= e.wd <= I32_MAX
    ensures |bytes| == TotalLen(e)
  {
    Header(e) + NameBytes(e.what)
  }

  ghost predicate AllCarried(events: seq<QueuedEvent>) {
    forall k :: 0 <= k < |events| ==> Carried(events[k])
  }

  ghost function WireAll(events: seq<QueuedEvent>): seq<Byte>
    requires AllCarried(events)
  {
    if events == [] then [] else Wire(events[0]) + WireAll(events[1..])
  }

  // ----- A reader -----

  function ParseEvent(bytes: seq<Byte>, len: nat): QueuedEvent
    requires HEADER + len <= |bytes|
  {
    QueuedEvent(Signed(Decode(bytes[0..4])),
                Happening(MaskOf(Decode(bytes[4..8])), Decode(bytes[8..12]),
                          if len == 0 then None else Some(UpToNul(bytes[HEADER..HEADER + len]))))
  }

  /** Reads events one after the other by the header's `len`; nothing if the bytes do not divide so. */
  function ParseAll(bytes: seq<Byte>): Option<seq<QueuedEvent>>
    decreases |bytes|
  {
    if bytes == [] then Some([])
    else if |bytes| < HEADER then None
    else
      var len := Decode(bytes[12..16]);
      if HEADER + len > |bytes| then None
      else
        var rest := ParseAll(bytes[HEADER + len..]);
        if rest.None? then None else Some([ParseEvent(bytes, len)] + rest.value)
  }

  lemma NameRoundTrip(name: seq<Byte>)
    requires 0 !in name
    ensures UpToNul(EncodeName(name)) == name
  {
    UpToNulEnds(EncodeName(name), |name|);
    assert EncodeName(name)[..|name|] == name;
  }

  lemma FieldRoundTrip(w: nat)
    requires w < U32
    ensures Decode(Encode(w, 4)) == w
  {
    Widths();
    RoundTrip(w, 4);
  }

  lemma MaskRoundTrip(mask: bv32)
    ensures (mask as nat) < U32 && MaskOf(mask as nat) == mask
  {
  }

  lemma Quarters(a: seq<Byte>, b: seq<Byte>, c: seq<Byte>, d: seq<Byte>, more: seq<Byte>)
    requires |a| == |b| == |c| == |d| == 4
    ensures var bytes := a + b + c + d + more;
            bytes[0..4] == a && bytes[4..8] == b && bytes[8..12] == c && bytes[12..16] == d
  {
  }

  /** Whatever follows an event, its header gives back its fields. */
  lemma HeaderFields(e: QueuedEvent, more: seq<Byte>)
    requires Carried(e)
    ensures var bytes := Header(e) + more;
            && Decode(bytes[0..4]) == Unsigned(e.wd) && Decode(bytes[4..8]) == e.what.mask as nat
            && Decode(bytes[8..12]) == e.what.cookie && Decode(bytes[12..16]) == |NameBytes(e.what)|
  {
    var wd, mask, cookie, len := Unsigned(e.wd), e.what.mask as nat, e.what.cookie, |NameBytes(e.what)|;
    MaskRoundTrip(e.what.mask);
    FieldRoundTrip(wd);
    FieldRoundTrip(mask);
    FieldRoundTrip(cookie);
    FieldRoundTrip(len);
    Quarters(Encode(wd, 4), Encode(mask, 4), Encode(cookie, 4), Encode(len, 4), more);
  }

  lemma WireSplits(e: QueuedEvent, more: seq<Byte>)
    requires Carried(e)
    ensures Wire(e) + more == Header(e) + (NameBytes(e.what) + more)
  {
  }

  lemma EventRoundTrip(e: QueuedEvent, more: seq<Byte>)
    requires Carried(e)
    ensures var bytes, len := Wire(e) + more, |NameBytes(e.what)|;
            ParseEvent(bytes, len) == e && bytes[HEADER + len..] == more
  {
    var bytes, len := Wire(e) + more, |NameBytes(e.what)|;
    WireSplits(e, more);
    HeaderFields(e, NameBytes(e.what) + more);
    MaskRoundTrip(e.what.mask);
    assert bytes[HEADER..HEADER + len] == NameBytes(e.what);
    if e.what.name.Some? {
      NameRoundTrip(e.what.name.value);
    }
  }

  /** Parsing what a read wrote recovers the events, names included, in order. */
  lemma {:induction false} FramingRoundTrip(events: seq<QueuedEvent>)
    requires AllCarried(events)
    ensures ParseAll(WireAll(events)) == Some(events)
  {
    if events != [] {
      var e, more := events[0], WireAll(events[1..]);
      FramingRoundTrip(events[1..]);
      WireSplits(e, more);
      HeaderFields(e, NameBytes(e.what) + more);
      EventRoundTrip(e, more);
      assert events == [e] + events[1..];
    }
  }

  lemma {:induction false} WireAllAppend(events: seq<QueuedEvent>, e: QueuedEvent)
    requires AllCarried(events) && Carried(e)
    ensures AllCarried(events + [e]) && WireAll(events + [e]) == WireAll(events) + Wire(e)
  {
    if events == [] {
      assert events + [e] == [e];
      assert WireAll([e][1..]) == [];
    } else {
      assert (events + [e])[1..] == events[1..] + [e];
      WireAllAppend(events[1..], e);
    }
  }

  // ----- The read loop -----

  datatype Outcome = Read(count: nat) | Invalid | TryAgain | Fault | Waiting

  /** What joined the queue in the first `n` looks at it. */
  ghost function Joined(arrivals: seq<seq<QueuedEvent>>, n: nat): seq<QueuedEvent>
    requires n <= |arrivals|
  {
    if n == 0 then [] else Joined(arrivals, n - 1) + arrivals[n - 1]
  }

  /** Why a read with `taken` removed, `out` written and `left` queued may end so. */
  ghost predicate Explains(
    r: Outcome, count: nat, nonblock: bool, taken: seq<QueuedEvent>, out: seq<Byte>, left: seq<QueuedEvent>)
    requires AllCarried(taken)
  {
    match r
    case Read(n) =>
      && taken != [] && out == WireAll(taken) && n == |out| <= count
      && (n == count || left == [] || TotalLen(left[0]) > count - n)
    case Invalid => taken == [] && (count < HEADER || (left != [] && TotalLen(left[0]) > count))
    case TryAgain => taken == [] && count >= HEADER && nonblock && left == []
    case Waiting => taken == [] && count >= HEADER && !nonblock && left == []
    case Fault => taken != [] && out == WireAll(taken[..|taken| - 1])
  }

  /** A read under way: `out` frames what was taken, and nothing that joined was lost. */
  ghost predicate UnderWay(
    taken: seq<QueuedEvent>, out: seq<Byte>, queue: seq<QueuedEvent>, was: seq<QueuedEvent>, joined: seq<QueuedEvent>)
  {
    && AllCarried(taken) && AllCarried(queue)
    && out == WireAll(taken) && (taken == [] <==> out == [])
    && taken + queue == was + joined
  }

  lemma Arrives(
    taken: seq<QueuedEvent>, out: seq<Byte>, queue: seq<QueuedEvent>, was: seq<QueuedEvent>, joined: seq<QueuedEvent>,
    batch: seq<QueuedEvent>)
    requires UnderWay(taken, out, queue, was, joined) && AllCarried(batch)
    ensures UnderWay(taken, out, queue + batch, was, joined + batch)
  {
    assert taken + (queue + batch) == (taken + queue) + batch;
  }

  lemma Writes(
    taken: seq<QueuedEvent>, out: seq<Byte>, queue: seq<QueuedEvent>, was: seq<QueuedEvent>, joined: seq<QueuedEvent>)
    requires UnderWay(taken, out, queue, was, joined) && queue != []
    ensures UnderWay(taken + [queue[0]], out + Wire(queue[0]), queue[1..], was, joined)
  {
    assert (taken + [queue[0]]) + queue[1..] == taken + queue;
    WireAllAppend(taken, queue[0]);
  }

  lemma Loses(
    taken: seq<QueuedEvent>, out: seq<Byte>, queue: seq<QueuedEvent>, was: seq<QueuedEvent>, joined: seq<QueuedEvent>,
    count: nat, nonblock: bool)
    requires UnderWay(taken, out, queue, was, joined) && queue != []
    ensures AllCarried(taken + [queue[0]]) && (taken + [queue[0]]) + queue[1..] == was + joined
    ensures Explains(Fault, count, nonblock, taken + [queue[0]], out, queue[1..])
  {
    assert (taken + [queue[0]])[..|taken|] == taken;
  }

  class EventQueue {
    var events: seq<QueuedEvent>

    constructor (events: seq<QueuedEvent>)
      ensures this.events == events
    {
      this.events := events;
    }

    /**
     `Inotify::read_impl`.  Before its i-th look at the queue, `arrivals[i]` joins it; a read that outlasts them is
     still waiting.  Of the caller's buffer, the first `room` bytes can be written.
     */
    method ReadImpl(count: nat, nonblock: bool, room: nat, arrivals: seq<seq<QueuedEvent>>)
      returns (r: Outcome, out: seq<Byte>, ghost taken: seq<QueuedEvent>, looks: nat)
      requires AllCarried(events) && forall i :: 0 <= i < |arrivals| ==> AllCarried(arrivals[i])
      modifies this
      ensures looks <= |arrivals| && taken + events == old(events) + Joined(arrivals, looks)
      ensures AllCarried(taken) && Explains(r, count, nonblock, taken, out, events)
      ensures count < HEADER ==> r == Invalid && looks == 0
    {
      out, taken, looks := [], [], 0;
      if count < HEADER { return Invalid, out, taken, looks; }
      while true
        invariant looks <= |arrivals| && |out| < count
        invariant UnderWay(taken, out, events, old(events), Joined(arrivals, looks))
        decreases |arrivals| - looks, |events|
      {
        if looks < |arrivals| {
          Arrives(taken, out, events, old(events), Joined(arrivals, looks), arrivals[looks]);
          events, looks := events + arrivals[looks], looks + 1;
        }
        ghost var queue := events;
        var look := Look(count, |out|, nonblock, looks == |arrivals|, taken, out);
        match look
        case Asleep => continue;
        case Ended(outcome) => return outcome, out, taken, looks;
        case Popped(event) =>
          if |out| + TotalLen(event) > room {
            Loses(taken, out, queue, old(events), Joined(arrivals, looks), count, nonblock);
            return Fault, out, taken + [event], looks;
          }
          Writes(taken, out, queue, old(events), Joined(arrivals, looks));
          out, taken := out + Wire(event), taken + [event];
          if |out| == count { return Read(count), out, taken, looks; }
      }
    }

    /** One look at the queue under its lock; with nothing queued a first event is waited for. */
    method Look(count: nat, done: nat, nonblock: bool, last: bool, ghost taken: seq<QueuedEvent>, ghost out: seq<Byte>)
      returns (look: Look)
      requires AllCarried(taken) && out == WireAll(taken) && (taken == [] <==> out == [])
      requires done == |out| < count && HEADER <= count
      modifies this
      ensures look.Popped? ==> old(events) != [] && look.event == old(events)[0] && events == old(events)[1..]
      ensures look.Popped? ==> TotalLen(look.event) <= count - done
      ensures !look.Popped? ==> events == old(events)
      ensures look == Asleep ==> !last
      ensures look.Ended? ==> Explains(look.outcome, count, nonblock, taken, out, events)
    {
      if events == [] {
        if done > 0 { return Ended(Read(done)); }
        if nonblock { return Ended(TryAgain); }
        return if last then Ended(Waiting) else Asleep;
      }
      if TotalLen(events[0]) > count - done {
        return Ended(if done == 0 then Invalid else Read(done));
      }
      look := Popped(events[0]);
      events := events[1..];
    }
  }

  datatype Look = Popped(event: QueuedEvent) | Ended(outcome: Outcome) | Asleep

  /** Putting the two together: a successful read is the framing of the first events of the queue. */
  lemma ReadRoundTrip(
    count: nat, n: nat, nonblock: bool,
    queue: seq<QueuedEvent>, taken: seq<QueuedEvent>, out: seq<Byte>, left: seq<QueuedEvent>)
    requires AllCarried(taken) && Explains(Read(n), count, nonblock, taken, out, left) && queue == taken + left
    ensures taken <= queue && |out| <= count && ParseAll(out) == Some(taken)
  {
    FramingRoundTrip(taken);
  }

  // ----- Queues only ever hold events that can be framed -----

  /** What the kernel dispatches: names without zero bytes that a length field can hold, and 32-bit cookies. */
  ghost predicate Sendable(what: Happening) {
    && what.cookie < U32 && |NameBytes(what)| < U32
    && (what.name.Some? ==> 0 !in what.name.value)
  }

  lemma QueueStaysCarried(s: System, step: Step, id: Instance)
    requires Inv(s) && Enabled(s, step) && id in Apply(s, step).live
    requires id in s.live ==> AllCarried(s.live[id].queue)
    requires step.DoDispatch? ==> Sendable(step.what)
    ensures AllCarried(Apply(s, step).live[id].queue)
  {
    if step.DoDispatch? {
      DispatchIsExact(s, step.inode, step.what, id);
    }
  }

  /** In every run, each queue of each live instance is one that a read can frame and a reader can parse. */
  lemma {:induction false} EveryQueueCarried(states: seq<System>, steps: seq<Step>, i: nat, id: Instance)
    requires IsRun(states, steps) && i < |states| && id in states[i].live
    requires forall j :: 0 <= j < |steps| && steps[j].DoDispatch? ==> Sendable(steps[j].what)
    ensures AllCarried(states[i].live[id].queue)
    ensures ParseAll(WireAll(states[i].live[id].queue)) == Some(states[i].live[id].queue)
  {
    if i > 0 {
      EveryRunIndexes(states, steps, i - 1);
      if id in states[i - 1].live {
        EveryQueueCarried(states, steps, i - 1, id);
      }
      QueueStaysCarried(states[i - 1], steps[i - 1], id);
    }
    FramingRoundTrip(states[i].live[id].queue);
  }
}
