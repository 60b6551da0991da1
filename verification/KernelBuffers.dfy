/**
 Kernel buffers in use: what a network of buffers conserves, and when the one reader and the one
 writer of a buffer are sure to be woken.
 */
module KernelBuffers {
  import opened Numbers
  import opened PageFrames
  import opened RingBuffers
  import opened WakerSets

  // ----- Data: a network of buffers -----

  /** A ring with the history of what was put in and what left it. */
  datatype Buffer = Buffer(ring: RingState, put: seq<Byte>, left: seq<Byte>)

  datatype Move =
    | PushSlice(b: nat, items: seq<Byte>)
    | PopSlice(b: nat, want: nat)
    | SpliceFrom(dst: nat, src: nat, count: nat)

  type Network = map<nat, Buffer>

  predicate AllRings(net: Network) {
    forall b :: b in net ==> IsRing(net[b].ring)
  }

  predicate CanMove(net: Network, m: Move) {
    match m
    case PushSlice(b, items) => b in net
    case PopSlice(b, want) => b in net
    case SpliceFrom(dst, src, count) => dst in net && src in net
  }

  /** What a call does to the rings' memory and indices, and what it took and delivered. */
  function DoMove(net: Network, m: Move): Network
    requires AllRings(net) && CanMove(net, m)
  {
    match m
    case PushSlice(b, items) =>
      var Buffer(ring, put, left) := net[b];
      net[b := Buffer(Push(ring, items), put + items[..PushLength(ring, items)], left)]
    case PopSlice(b, want) =>
      var Buffer(ring, put, left) := net[b];
      net[b := Buffer(Pop(ring, want), put, left + Popped(ring, want))]
    case SpliceFrom(dst, src, count) =>
      if dst == src then net
      else
        var to, from := net[dst], net[src];
        var items := Spliced(to.ring, from.ring, count);
        net[dst := Buffer(Append(to.ring, items), to.put + items, to.left)]
           [src := Buffer(Drop(from.ring, SpliceLength(to.ring, from.ring, count)), from.put, from.left + items)]
  }

  /** Rings start empty, at any index and with any memory. */
  predicate Starts(net: Network) {
    forall b :: b in net ==> IsRing(net[b].ring) && Held(net[b].ring) == 0 && net[b].put == [] == net[b].left
  }

  predicate IsNetworkRun(nets: seq<Network>, moves: seq<Move>) {
    && |nets| == |moves| + 1
    && Starts(nets[0])
    && forall i :: 0 <= i < |moves| ==>
                     AllRings(nets[i]) && CanMove(nets[i], moves[i]) && nets[i + 1] == DoMove(nets[i], moves[i])
  }

  /** Everything put into a buffer is what left it followed by what its ring holds, in order. */
  predicate BufferConserves(b: Buffer) {
    IsRing(b.ring) && b.put == b.left + Contents(b.ring)
  }

  predicate Conserves(net: Network) {
    forall b :: b in net ==> BufferConserves(net[b])
  }

  lemma PutConserves(b: Buffer, items: seq<Byte>)
    requires BufferConserves(b) && Held(b.ring) + |items| <= |b.ring.bytes|
    ensures BufferConserves(Buffer(Append(b.ring, items), b.put + items, b.left))
  {
    AppendExtends(b.ring, items);
    assert b.left + (Contents(b.ring) + items) == b.put + items;
  }

  lemma TakeConserves(b: Buffer, n: nat, items: seq<Byte>)
    requires BufferConserves(b) && n <= Held(b.ring)
    requires items == View(b.ring.bytes, Start(b.ring.read, |b.ring.bytes|), n)
    ensures BufferConserves(Buffer(Drop(b.ring, n), b.put, b.left + items))
  {
    DropShortens(b.ring, n);
    assert b.left + (items + Contents(Drop(b.ring, n))) == (b.left + items) + Contents(Drop(b.ring, n));
  }

  lemma MoveConserves(net: Network, m: Move)
    requires AllRings(net) && Conserves(net) && CanMove(net, m)
    ensures Conserves(DoMove(net, m)) && AllRings(DoMove(net, m))
  {
    match m
    case PushSlice(b, items) => PutConserves(net[b], items[..PushLength(net[b].ring, items)]);
    case PopSlice(b, want) => TakeConserves(net[b], Min(want, Held(net[b].ring)), Popped(net[b].ring, want));
    case SpliceFrom(dst, src, count) =>
      var items := Spliced(net[dst].ring, net[src].ring, count);
      PutConserves(net[dst], items);
      TakeConserves(net[src], SpliceLength(net[dst].ring, net[src].ring, count), items);
  }

  lemma {:induction false} EveryNetworkRunConserves(nets: seq<Network>, moves: seq<Move>, i: nat)
    requires IsNetworkRun(nets, moves) && i < |nets|
    ensures Conserves(nets[i])
  {
    if i > 0 {
      EveryNetworkRunConserves(nets, moves, i - 1);
      MoveConserves(nets[i - 1], moves[i - 1]);
    }
  }

  // ----- Progress: one reader, one writer -----

  datatype Phase = Fresh | Asleep | Awake | Done

  /** What the waiting future does when its condition holds. */
  datatype Wish =
    | Ready              // read_ready, write_ready
    | Slice(n: nat)      // pop_slice, push_slice of `n` items

  /** One side of the buffer: at most one future, with the token it registered. */
  datatype Side = Idle | Waiting(wish: Wish, phase: Phase, token: Option<nat>)

  datatype Pipe = Pipe(cap: nat, used: nat, readWaiters: Wakers, writeWaiters: Wakers, reader: Side, writer: Side)

  datatype Step =
    | StartRead(wish: Wish)
    | PollRead
    | EndRead              // drop of the read future, finished or cancelled
    | TryPop(n: nat)       // by anyone
    | StartWrite(wish: Wish)
    | PollWrite
    | EndWrite
    | TryPush(n: nat)      // by anyone

  function Roused(side: Side): Side {
    if side.Waiting? && side.phase.Asleep? then side.(phase := Awake) else side
  }

  /** Waking one waiter of a set that only one future uses. */
  ghost function WakeReader(p: Pipe): Pipe {
    p.(readWaiters := Wake(p.readWaiters, WakeFirst),
       reader := if p.readWaiters.waiters == map[] then p.reader else Roused(p.reader))
  }

  ghost function WakeWriter(p: Pipe): Pipe {
    p.(writeWaiters := Wake(p.writeWaiters, WakeFirst),
       writer := if p.writeWaiters.waiters == map[] then p.writer else Roused(p.writer))
  }

  /** `n` items leave; a writer is woken if any did. */
  ghost function PopItems(p: Pipe, n: nat): Pipe {
    var taken := Min(n, p.used);
    if taken == 0 then p else WakeWriter(p.(used := p.used - taken))
  }

  /** `n` items enter; a reader is woken if any did. */
  ghost function PushItems(p: Pipe, n: nat): Pipe
    requires p.used <= p.cap
  {
    var given := Min(n, p.cap - p.used);
    if given == 0 then p else WakeReader(p.(used := p.used + given))
  }

  ghost function PollReader(p: Pipe): Pipe
    requires p.reader.Waiting?
  {
    if p.used > 0 then
      var p' := if p.reader.wish.Slice? then PopItems(p, p.reader.wish.n) else p;
      p'.(reader := p.reader.(phase := Done))
    else if p.reader.token.None? then
      p.(readWaiters := Register(p.readWaiters, 0),
         reader := p.reader.(phase := Asleep, token := Some(p.readWaiters.nextId)))
    else p.(reader := p.reader.(phase := Asleep))
  }

  /** The slice form also wakes another writer when it leaves room. */
  ghost function PollWriter(p: Pipe): Pipe
    requires p.writer.Waiting? && p.used <= p.cap
  {
    if p.used < p.cap then
      if p.writer.wish.Slice? then
        var given := Min(p.writer.wish.n, p.cap - p.used);
        var p1 := p.(used := p.used + given);
        var p2 := if p1.used < p1.cap then WakeWriter(p1) else p1;
        var p3 := if given > 0 then WakeReader(p2) else p2;
        p3.(writer := p.writer.(phase := Done))
      else p.(writer := p.writer.(phase := Done))
    else if p.writer.token.None? then
      p.(writeWaiters := Register(p.writeWaiters, 1),
         writer := p.writer.(phase := Asleep, token := Some(p.writeWaiters.nextId)))
    else p.(writer := p.writer.(phase := Asleep))
  }

  function Unregister(w: Wakers, side: Side): Wakers {
    if side.Waiting? && side.token.Some? then Remove(w, side.token.value) else w
  }

  predicate CanPoll(side: Side, w: Wakers) {
    side.Waiting? && !side.phase.Done? && w.nextId + 1 < TOKENS
  }

  predicate GoodWish(wish: Wish) {
    wish.Slice? ==> wish.n > 0
  }

  /** Someone empties the buffer under a reader that was woken and has yet to poll. */
  predicate StealsFromReader(p: Pipe, n: nat) {
    p.reader.Waiting? && p.reader.phase.Awake? && n >= p.used
  }

  /** Someone fills the buffer under a writer that was woken and has yet to poll. */
  predicate StealsFromWriter(p: Pipe, n: nat)
  {
    p.writer.Waiting? && p.writer.phase.Awake? && p.used + n >= p.cap
  }

  predicate Enabled(p: Pipe, step: Step) {
    match step
    case StartRead(wish) => p.reader.Idle? && GoodWish(wish)
    case PollRead => CanPoll(p.reader, p.readWaiters)
    case EndRead => p.reader.Waiting?
    case TryPop(n) => !StealsFromReader(p, n)
    case StartWrite(wish) => p.writer.Idle? && GoodWish(wish)
    case PollWrite => CanPoll(p.writer, p.writeWaiters)
    case EndWrite => p.writer.Waiting?
    case TryPush(n) => !StealsFromWriter(p, n)
  }

  ghost function Apply(p: Pipe, step: Step): Pipe
    requires Enabled(p, step) && p.used <= p.cap
  {
    match step
    case StartRead(wish) => p.(reader := Waiting(wish, Fresh, None))
    case PollRead => PollReader(p)
    case EndRead => p.(readWaiters := Unregister(p.readWaiters, p.reader), reader := Idle)
    case TryPop(n) => PopItems(p, n)
    case StartWrite(wish) => p.(writer := Waiting(wish, Fresh, None))
    case PollWrite => PollWriter(p)
    case EndWrite => p.(writeWaiters := Unregister(p.writeWaiters, p.writer), writer := Idle)
    case TryPush(n) => PushItems(p, n)
  }

  /** One side's registration: it is in its set exactly while it sleeps. */
  predicate SideHolds(side: Side, w: Wakers) {
    && (side.Waiting? && side.phase.Asleep? ==> side.token.Some? && w.waiters.Keys == {side.token.value})
    && (!(side.Waiting? && side.phase.Asleep?) ==> w.waiters == map[])
    && (side.Waiting? && side.phase.Fresh? ==> side.token.None?)
    && (side.Waiting? && side.phase.Awake? ==> side.token.Some?)
    && (side.Waiting? ==> GoodWish(side.wish))
  }

  predicate Inv(p: Pipe) {
    && p.cap > 0 && p.used <= p.cap
    && SideHolds(p.reader, p.readWaiters) && SideHolds(p.writer, p.writeWaiters)
    && (p.reader.Waiting? && p.reader.phase.Asleep? ==> p.used == 0)
    && (p.reader.Waiting? && p.reader.phase.Awake? ==> p.used > 0)
    && (p.writer.Waiting? && p.writer.phase.Asleep? ==> p.used == p.cap)
    && (p.writer.Waiting? && p.writer.phase.Awake? ==> p.used < p.cap)
  }

  /** Waking the one entry of a set empties it. */
  lemma WakeEmpties(w: Wakers, token: nat)
    requires w.waiters.Keys == {token}
    ensures Wake(w, WakeFirst).waiters == map[]
  {
    assert w.waiters != map[];
    assert Wake(w, WakeFirst).waiters.Keys == {};
  }

  lemma WakeReaderHolds(p: Pipe)
    requires SideHolds(p.reader, p.readWaiters)
    ensures SideHolds(WakeReader(p).reader, WakeReader(p).readWaiters)
    ensures !(WakeReader(p).reader.Waiting? && WakeReader(p).reader.phase.Asleep?)
  {
    if p.readWaiters.waiters != map[] {
      WakeEmpties(p.readWaiters, p.reader.token.value);
    } else {
      assert Wake(p.readWaiters, WakeFirst).waiters == map[];
    }
  }

  lemma WakeWriterHolds(p: Pipe)
    requires SideHolds(p.writer, p.writeWaiters)
    ensures SideHolds(WakeWriter(p).writer, WakeWriter(p).writeWaiters)
    ensures !(WakeWriter(p).writer.Waiting? && WakeWriter(p).writer.phase.Asleep?)
  {
    if p.writeWaiters.waiters != map[] {
      WakeEmpties(p.writeWaiters, p.writer.token.value);
    } else {
      assert Wake(p.writeWaiters, WakeFirst).waiters == map[];
    }
  }

  /** A pop by anyone keeps the invariant if and only if it does not empty the buffer under a woken reader. */
  lemma PopKeepsIff(p: Pipe, n: nat)
    requires Inv(p)
    ensures Inv(PopItems(p, n)) <==> !StealsFromReader(p, n)
  {
    WakeWriterHolds(p.(used := p.used - Min(n, p.used)));
  }

  /** A push by anyone keeps the invariant if and only if it does not fill the buffer under a woken writer. */
  lemma PushKeepsIff(p: Pipe, n: nat)
    requires Inv(p)
    ensures Inv(PushItems(p, n)) <==> !StealsFromWriter(p, n)
  {
    WakeReaderHolds(p.(used := p.used + Min(n, p.cap - p.used)));
  }

  lemma PollReaderKeeps(p: Pipe)
    requires Inv(p) && CanPoll(p.reader, p.readWaiters)
    ensures Inv(PollReader(p))
  {
    var done := p.(reader := p.reader.(phase := Done));
    if p.used > 0 && p.reader.wish.Slice? {
      PopKeepsIff(done, p.reader.wish.n);
      assert PollReader(p) == PopItems(done, p.reader.wish.n);
    }
  }

  lemma PollWriterKeeps(p: Pipe)
    requires Inv(p) && CanPoll(p.writer, p.writeWaiters)
    ensures Inv(PollWriter(p))
  {
    var done := p.(writer := p.writer.(phase := Done));
    if p.used < p.cap && p.writer.wish.Slice? {
      PushKeepsIff(done, p.writer.wish.n);
      assert Wake(p.writeWaiters, WakeFirst) == p.writeWaiters;
      assert PollWriter(p) == PushItems(done, p.writer.wish.n);
    }
  }

  lemma StepKeeps(p: Pipe, step: Step)
    requires Inv(p) && Enabled(p, step)
    ensures Inv(Apply(p, step))
  {
    match step
    case PollRead => PollReaderKeeps(p);
    case PollWrite => PollWriterKeeps(p);
    case TryPop(n) => PopKeepsIff(p, n);
    case TryPush(n) => PushKeepsIff(p, n);
    case EndRead => assert Apply(p, step).readWaiters.waiters == map[];
    case EndWrite => assert Apply(p, step).writeWaiters.waiters == map[];
    case _ =>
  }

  predicate Sleeps(side: Side) {
    side.Waiting? && side.phase.Asleep?
  }

  /**
   A polled reader finishes if and only if there is data. It takes what it wished for or all there is, and then a
   sleeping writer is woken; if there is nothing it sleeps, and nothing else changes.
   */
  lemma ReaderGets(p: Pipe)
    requires Inv(p) && CanPoll(p.reader, p.readWaiters)
    ensures var after, taken := PollReader(p), if p.reader.wish.Slice? then Min(p.reader.wish.n, p.used) else 0;
            && after.reader.Waiting? && after.reader.wish == p.reader.wish && after.cap == p.cap
            && (p.used > 0 ==> after.reader.phase.Done?) && (p.used == 0 ==> Sleeps(after.reader))
            && after.used == p.used - taken
            && after.writer == if taken > 0 && Sleeps(p.writer) then p.writer.(phase := Awake) else p.writer
  {
    if p.used > 0 && p.reader.wish.Slice? && Sleeps(p.writer) {
      assert p.writer.token.value in p.writeWaiters.waiters;
    }
  }

  /** The same for a writer and room; a writer polled finds no other writer to wake. */
  lemma WriterPuts(p: Pipe)
    requires Inv(p) && CanPoll(p.writer, p.writeWaiters)
    ensures var after, room := PollWriter(p), p.cap - p.used;
            var given := if p.writer.wish.Slice? then Min(p.writer.wish.n, room) else 0;
            && after.writer.Waiting? && after.writer.wish == p.writer.wish && after.cap == p.cap
            && (room > 0 ==> after.writer.phase.Done?) && (room == 0 ==> Sleeps(after.writer))
            && after.used == p.used + given
            && after.reader == if given > 0 && Sleeps(p.reader) then p.reader.(phase := Awake) else p.reader
  {
    if p.used < p.cap && p.writer.wish.Slice? && Sleeps(p.reader) {
      assert p.reader.token.value in p.readWaiters.waiters;
    }
  }

  predicate IsRun(states: seq<Pipe>, steps: seq<Step>) {
    && |states| == |steps| + 1
    && states[0] == Pipe(states[0].cap, 0, NoWakers, NoWakers, Idle, Idle) && states[0].cap > 0
    && forall i :: 0 <= i < |steps| ==> states[i].used <= states[i].cap && Enabled(states[i], steps[i])
  }

  ghost predicate Follows(states: seq<Pipe>, steps: seq<Step>) {
    IsRun(states, steps) && forall i :: 0 <= i < |steps| ==> states[i + 1] == Apply(states[i], steps[i])
  }

  /**
   With one waiting reader and one waiting writer, and pops and pushes by anyone that do not steal from them, a reader
   is never asleep on a buffer with data, a writer never on one with room.
   */
  lemma {:induction false} NobodySleepsInVain(states: seq<Pipe>, steps: seq<Step>, i: nat)
    requires Follows(states, steps) && i < |states|
    ensures Inv(states[i])
    ensures states[i].reader.Waiting? && states[i].reader.phase.Asleep? ==> states[i].used == 0
    ensures states[i].writer.Waiting? && states[i].writer.phase.Asleep? ==> states[i].used == states[i].cap
  {
    if i > 0 {
      NobodySleepsInVain(states, steps, i - 1);
      StepKeeps(states[i - 1], steps[i - 1]);
    }
  }

  /**
   What stealing does: if anyone else empties the buffer between the reader's wake-up and its
   poll, the reader sleeps unregistered, and data pushed later does not wake it.
   */
  lemma SecondReaderLosesWakeUp(p: Pipe, n: nat)
    requires Inv(p) && p.reader.Waiting? && p.reader.phase.Awake? && n > 0
    requires p.readWaiters.nextId + 1 < TOKENS
    ensures var drained := PopItems(p, p.used);
            var parked := PollReader(drained);
            var pushed := PushItems(parked, n);
            pushed.used > 0 && pushed.reader.phase.Asleep? && pushed.readWaiters.waiters == map[]
  {
    var parked := PollReader(PopItems(p, p.used));
    assert parked.readWaiters.waiters == map[];
    assert Wake(parked.readWaiters, WakeFirst).waiters == map[];
  }
}
