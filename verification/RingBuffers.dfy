/**
 The ring under a kernel buffer, and the splice that moves data between two rings by copying
 between their wrapped slices.
 */
module RingBuffers {
  import opened Numbers
  import opened PageFrames

  /** A contiguous part of a buffer. */
  datatype Span = Span(start: nat, length: nat)

  /** Element `j` of two spans read one after the other. */
  function At(head: Span, tail: Span, j: nat): nat
    requires j < head.length + tail.length
  {
    if j < head.length then head.start + j else tail.start + (j - head.length)
  }

  predicate InRange(s: Span, length: nat) {
    s.start + s.length <= length
  }

  /** The offset `i` past `start`, wrapped. */
  function Wrapped(start: nat, i: nat, cap: nat): nat {
    if start + i < cap then start + i else start + i - cap
  }

  /** The `n` items of a wrapped buffer from `start` on. */
  function View(items: seq<Byte>, start: nat, n: nat): (view: seq<Byte>)
    requires start < |items| && n <= |items|
    ensures |view| == n
  {
    seq(n, i requires 0 <= i < n => items[Wrapped(start, i, |items|)])
  }

  /** Position `p` is among the first `n` of two spans. */
  predicate Covers(head: Span, tail: Span, n: nat, p: nat) {
    || head.start <= p < head.start + Min(n, head.length)
    || (n > head.length && tail.start <= p < tail.start + (n - head.length))
  }

  method CopyRange(src: array<Byte>, from: nat, dst: array<Byte>, to: nat, n: nat)
    requires src != dst && from + n <= src.Length && to + n <= dst.Length
    modifies dst
    ensures forall p :: 0 <= p < dst.Length ==>
              dst[p] == if to <= p < to + n then src[p - to + from] else old(dst[p])
  {
    forall i | 0 <= i < n {
      dst[to + i] := src[from + i];
    }
  }

  /**
   Copies between two pairs of slices in at most three pieces. What is copied is a prefix of the
   source, in order, and its length is limited by the longer of the two heads.
   */
  method CopySlices(src: array<Byte>, srcHead: Span, srcTail: Span,
                    dst: array<Byte>, dstHead: Span, dstTail: Span, amount: nat) returns (copied: nat)
    requires src != dst && InRange(srcHead, src.Length) && InRange(srcTail, src.Length)
    requires InRange(dstHead, dst.Length) && dstTail.start + dstTail.length <= dstHead.start
    requires amount <= srcHead.length + srcTail.length && amount <= dstHead.length + dstTail.length
    modifies dst
    ensures copied == Min(amount, Max(srcHead.length, dstHead.length))
    ensures forall j :: 0 <= j < copied ==> dst[At(dstHead, dstTail, j)] == src[At(srcHead, srcTail, j)]
    ensures forall p :: 0 <= p < dst.Length && !Covers(dstHead, dstTail, copied, p) ==> dst[p] == old(dst[p])
  {
    var left := amount;
    var n1 := Min(left, Min(srcHead.length, dstHead.length));
    CopyRange(src, srcHead.start, dst, dstHead.start, n1);
    left := left - n1;
    if left == 0 {
      return amount;
    }
    var n2 := Min(left, Min(srcHead.length - n1, dstTail.length));
    CopyRange(src, srcHead.start + n1, dst, dstTail.start, n2);
    left := left - n2;
    if left == 0 {
      return amount;
    }
    var n3 := Min(left, Min(srcTail.length, dstHead.length - n1));
    CopyRange(src, srcTail.start, dst, dstHead.start + n1, n3);
    left := left - n3;
    return amount - left;
  }

  /** Head and tail of the `n` items from `start` on in a buffer of `cap`. */
  function Spans(start: nat, n: nat, cap: nat): (spans: (Span, Span))
    requires start < cap && n <= cap
    ensures spans.0.length + spans.1.length == n && InRange(spans.0, cap) && (n > 0 ==> spans.0.length > 0)
    ensures spans.1.start + spans.1.length <= spans.0.start
    ensures forall j :: 0 <= j < n ==> At(spans.0, spans.1, j) == Wrapped(start, j, cap)
  {
    if start + n <= cap then (Span(start, n), Span(0, 0))
    else (Span(start, cap - start), Span(0, start + n - cap))
  }

  /** No vacant position is an occupied one. */
  lemma OldUncovered(cap: nat, start: nat, held: nat, n: nat, i: nat)
    requires start < cap && held + n <= cap && i < held
    ensures var (head, tail) := Spans(Wrapped(start, held, cap), cap - held, cap);
            !Covers(head, tail, n, Wrapped(start, i, cap))
  {
  }

  /** `now` differs from `was` only by `items`, written into the spans in order. */
  ghost predicate Written(was: seq<Byte>, now: seq<Byte>, head: Span, tail: Span, items: seq<Byte>) {
    && |was| == |now| && InRange(head, |was|) && InRange(tail, |was|) && |items| <= head.length + tail.length
    && (forall p :: 0 <= p < |was| && !Covers(head, tail, |items|, p) ==> now[p] == was[p])
    && (forall j :: 0 <= j < |items| ==> now[At(head, tail, j)] == items[j])
  }

  /** Items written into the vacant spans stand behind the items already held. */
  lemma AppendView(was: seq<Byte>, now: seq<Byte>, start: nat, held: nat, items: seq<Byte>, head: Span, tail: Span)
    requires start < |was| && held + |items| <= |was|
    requires (head, tail) == Spans(Wrapped(start, held, |was|), |was| - held, |was|)
    requires Written(was, now, head, tail, items)
    ensures View(now, start, held + |items|) == View(was, start, held) + items
  {
    var cap := |was|;
    forall i | 0 <= i < held ensures now[Wrapped(start, i, cap)] == was[Wrapped(start, i, cap)] {
      OldUncovered(cap, start, held, |items|, i);
    }
    forall j | 0 <= j < |items| ensures now[Wrapped(start, held + j, cap)] == items[j] {
      assert Wrapped(start, held + j, cap) == Wrapped(Wrapped(start, held, cap), j, cap) == At(head, tail, j);
    }
    var before, after := View(was, start, held), View(now, start, held + |items|);
    forall i | 0 <= i < held + |items| ensures after[i] == (before + items)[i] {
      if i >= held { assert i == held + (i - held); }
    }
  }

  lemma DropView(items: seq<Byte>, start: nat, held: nat, n: nat)
    requires start < |items| && n <= held <= |items|
    ensures View(items, start, held) == View(items, start, n) + View(items, Wrapped(start, n, |items|), held - n)
  {
    var whole, first, rest := View(items, start, held), View(items, start, n),
                              View(items, Wrapped(start, n, |items|), held - n);
    forall i | 0 <= i < held ensures whole[i] == (first + rest)[i] {
      if i >= n { assert Wrapped(start, i, |items|) == Wrapped(Wrapped(start, n, |items|), i - n, |items|); }
    }
  }

  /** The bytes after `items` are written into the spans in order. */
  function Fill(bytes: seq<Byte>, head: Span, tail: Span, items: seq<Byte>): seq<Byte> {
    seq(|bytes|, p requires 0 <= p < |bytes| =>
      if head.start <= p < head.start + Min(|items|, head.length) then items[p - head.start]
      else if tail.start <= p && p - tail.start + head.length < |items| then items[p - tail.start + head.length]
      else bytes[p])
  }

  lemma FillIsWritten(bytes: seq<Byte>, head: Span, tail: Span, items: seq<Byte>)
    requires InRange(head, |bytes|) && tail.start + tail.length <= head.start && |items| <= head.length + tail.length
    ensures Written(bytes, Fill(bytes, head, tail, items), head, tail, items)
  {
    var now := Fill(bytes, head, tail, items);
    forall j | 0 <= j < |items| ensures now[At(head, tail, j)] == items[j] {
      if j < head.length {
        var p := head.start + j;
        assert j < Min(|items|, head.length) && now[p] == items[p - head.start];
      } else {
        var p := tail.start + (j - head.length);
        assert p < head.start && now[p] == items[p - tail.start + head.length];
      }
    }
  }

  lemma WrittenIsFill(was: seq<Byte>, now: seq<Byte>, head: Span, tail: Span, items: seq<Byte>)
    requires InRange(head, |was|) && tail.start + tail.length <= head.start && Written(was, now, head, tail, items)
    ensures now == Fill(was, head, tail, items)
  {
    forall p | 0 <= p < |was| ensures now[p] == Fill(was, head, tail, items)[p] {
      if head.start <= p < head.start + Min(|items|, head.length) {
        assert At(head, tail, p - head.start) == p;
      } else if tail.start <= p && p - tail.start + head.length < |items| {
        assert At(head, tail, p - tail.start + head.length) == p;
      }
    }
  }

  // ----- Rings as values -----

  /** A ring's memory and indices; the indices run to twice the capacity, so that full and empty differ. */
  datatype RingState = RingState(bytes: seq<Byte>, read: nat, write: nat)

  function Occupied(read: nat, write: nat, cap: nat): nat
    requires read < 2 * cap && write < 2 * cap
  {
    if write >= read then write - read else write + 2 * cap - read
  }

  predicate InPlace(read: nat, write: nat, cap: nat) {
    read < 2 * cap && write < 2 * cap && Occupied(read, write, cap) <= cap
  }

  predicate IsRing(r: RingState) {
    InPlace(r.read, r.write, |r.bytes|)
  }

  function Start(index: nat, cap: nat): nat {
    if index >= cap then index - cap else index
  }

  function Advance(index: nat, n: nat, cap: nat): nat {
    if index + n >= 2 * cap then index + n - 2 * cap else index + n
  }

  function Held(r: RingState): nat
    requires IsRing(r)
  {
    Occupied(r.read, r.write, |r.bytes|)
  }

  /** The items in a ring, oldest first. */
  function Contents(r: RingState): (items: seq<Byte>)
    requires IsRing(r)
    ensures |items| == Held(r)
  {
    View(r.bytes, Start(r.read, |r.bytes|), Held(r))
  }

  /** The occupied slices: head up to the end of the memory, tail from its start. */
  function OccupiedSpans(read: nat, write: nat, cap: nat): (Span, Span)
    requires InPlace(read, write, cap)
  {
    Spans(Start(read, cap), Occupied(read, write, cap), cap)
  }

  function VacantSpans(read: nat, write: nat, cap: nat): (Span, Span)
    requires InPlace(read, write, cap)
  {
    Spans(Start(write, cap), cap - Occupied(read, write, cap), cap)
  }

  /** Items go into the vacant slices, then the write index moves. */
  function Append(r: RingState, items: seq<Byte>): RingState
    requires IsRing(r)
  {
    var (head, tail) := VacantSpans(r.read, r.write, |r.bytes|);
    RingState(Fill(r.bytes, head, tail, items), r.read, Advance(r.write, |items|, |r.bytes|))
  }

  function Drop(r: RingState, n: nat): RingState {
    r.(read := Advance(r.read, n, |r.bytes|))
  }

  function PushLength(r: RingState, items: seq<Byte>): nat
    requires IsRing(r)
  {
    Min(|items|, |r.bytes| - Held(r))
  }

  function Push(r: RingState, items: seq<Byte>): RingState
    requires IsRing(r)
  {
    Append(r, items[..PushLength(r, items)])
  }

  /** What a pop of `want` items delivers. */
  function Popped(r: RingState, want: nat): seq<Byte>
    requires IsRing(r)
  {
    View(r.bytes, Start(r.read, |r.bytes|), Min(want, Held(r)))
  }

  function Pop(r: RingState, want: nat): RingState
    requires IsRing(r)
  {
    Drop(r, Min(want, Held(r)))
  }

  /** How much one call of splice moves: what fits and was asked for, but no more than the longer first slice. */
  function SpliceLength(dst: RingState, src: RingState, count: nat): nat
    requires IsRing(dst) && IsRing(src)
  {
    Min(Min(count, Min(Held(src), |dst.bytes| - Held(dst))),
        Max(OccupiedSpans(src.read, src.write, |src.bytes|).0.length,
            VacantSpans(dst.read, dst.write, |dst.bytes|).0.length))
  }

  /** What one call of splice moves, read out of the source's slices. */
  function Spliced(dst: RingState, src: RingState, count: nat): seq<Byte>
    requires IsRing(dst) && IsRing(src)
  {
    View(src.bytes, Start(src.read, |src.bytes|), SpliceLength(dst, src, count))
  }

  /** Writing into the vacant slices appends to the contents, however the ring wraps. */
  lemma AppendExtends(r: RingState, items: seq<Byte>)
    requires IsRing(r) && Held(r) + |items| <= |r.bytes|
    ensures IsRing(Append(r, items)) && Contents(Append(r, items)) == Contents(r) + items
  {
    var cap, held := |r.bytes|, Held(r);
    var (head, tail) := VacantSpans(r.read, r.write, cap);
    assert Start(r.write, cap) == Wrapped(Start(r.read, cap), held, cap);
    FillIsWritten(r.bytes, head, tail, items);
    AppendView(r.bytes, Fill(r.bytes, head, tail, items), Start(r.read, cap), held, items, head, tail);
    assert Held(Append(r, items)) == held + |items|;
  }

  /** Moving the read index takes a prefix off the contents. */
  lemma DropShortens(r: RingState, n: nat)
    requires IsRing(r) && n <= Held(r)
    ensures IsRing(Drop(r, n))
    ensures Contents(r) == View(r.bytes, Start(r.read, |r.bytes|), n) + Contents(Drop(r, n))
  {
    var cap := |r.bytes|;
    DropView(r.bytes, Start(r.read, cap), Held(r), n);
    assert Start(Advance(r.read, n, cap), cap) == Wrapped(Start(r.read, cap), n, cap);
    assert Held(Drop(r, n)) == Held(r) - n;
  }

  /** A splice moves exactly a prefix of the source behind the destination's contents; some of it if data can move. */
  lemma SpliceMoves(dst: RingState, src: RingState, count: nat)
    requires IsRing(dst) && IsRing(src)
    ensures var n, items := SpliceLength(dst, src, count), Spliced(dst, src, count);
            && IsRing(Append(dst, items)) && IsRing(Drop(src, n))
            && Contents(Append(dst, items)) == Contents(dst) + items
            && Contents(src) == items + Contents(Drop(src, n))
            && (n > 0 <==> count > 0 && Held(src) > 0 && Held(dst) < |dst.bytes|)
  {
    AppendExtends(dst, Spliced(dst, src, count));
    DropShortens(src, SpliceLength(dst, src, count));
  }

  /** The items from an index up to the end of the memory. */
  function FirstRun(index: nat, n: nat, cap: nat): nat
    requires index < 2 * cap
  {
    Min(n, if index < cap then cap - index else 2 * cap - index)
  }

  /**
   A splice moves everything asked for that is held and fits, unless neither the source's items nor the destination's
   room reach that far before the end of the memory; then it stops at the longer of the two runs.
   */
  lemma SpliceLengthIs(dst: RingState, src: RingState, count: nat)
    requires IsRing(dst) && IsRing(src)
    ensures var all := Min(count, Min(|Contents(src)|, |dst.bytes| - |Contents(dst)|));
            var longer := Max(FirstRun(src.read, |Contents(src)|, |src.bytes|),
                              FirstRun(dst.write, |dst.bytes| - |Contents(dst)|, |dst.bytes|));
            SpliceLength(dst, src, count) == if all <= longer then all else longer
  {
  }

  // ----- Rings in place -----

  class Ring {
    const cap: nat
    const buf: array<Byte>
    var read: nat
    var write: nat

    ghost predicate Valid()
      reads this
    {
      buf.Length == cap && InPlace(read, write, cap)
    }

    ghost function State(): (r: RingState)
      reads this, buf
      ensures Valid() ==> IsRing(r)
    {
      RingState(buf[..], read, write)
    }

    constructor (capacity: nat)
      requires capacity > 0
      ensures Valid() && fresh(buf) && cap == capacity && Contents(State()) == []
    {
      cap := capacity;
      buf := new Byte[capacity];
      read, write := 0, 0;
    }

    method PushSlice(items: seq<Byte>) returns (n: nat)
      requires Valid()
      modifies this`write, buf
      ensures Valid() && State() == Push(old(State()), items) && n == PushLength(old(State()), items)
      ensures n == Min(|items|, cap - |old(Contents(State()))|)
      ensures Contents(State()) == old(Contents(State())) + items[..n]
    {
      n := Min(|items|, cap - Occupied(read, write, cap));
      AppendExtends(State(), items[..n]);
      var (head, tail) := VacantSpans(read, write, cap);
      WriteSpans(head, tail, items[..n]);
      WrittenIsFill(old(buf[..]), buf[..], head, tail, items[..n]);
      write := Advance(write, n, cap);
    }

    method WriteSpans(head: Span, tail: Span, items: seq<Byte>)
      requires InRange(head, buf.Length) && tail.start + tail.length <= head.start
      requires |items| <= head.length + tail.length
      modifies buf
      ensures Written(old(buf[..]), buf[..], head, tail, items)
    {
      var first := Min(|items|, head.length);
      forall j | 0 <= j < first {
        buf[head.start + j] := items[j];
      }
      forall j | 0 <= j < |items| - first {
        buf[tail.start + j] := items[first + j];
      }
    }

    method PopSlice(want: nat) returns (items: seq<Byte>)
      requires Valid()
      modifies this`read
      ensures Valid() && State() == Pop(old(State()), want) && items == Popped(old(State()), want)
      ensures |items| == Min(want, |old(Contents(State()))|)
      ensures old(Contents(State())) == items + Contents(State())
    {
      var n := Min(want, Occupied(read, write, cap));
      DropShortens(State(), n);
      items := View(buf[..], Start(read, cap), n);
      read := Advance(read, n, cap);
    }

    /**
     Moves a prefix of the source's contents behind this ring's contents. It is all that fits and
     was asked for, unless both rings wrap so that a fourth piece would be needed.
     */
    method SpliceFrom(source: Ring, count: nat) returns (copied: nat)
      requires Valid() && source.Valid() && (source != this ==> source.buf != buf)
      modifies this`write, buf, source`read
      ensures Valid() && source.Valid()
      ensures source == this ==> copied == 0 && State() == old(State())
      ensures source != this ==>
                && copied == SpliceLength(old(State()), old(source.State()), count)
                && State() == Append(old(State()), Spliced(old(State()), old(source.State()), count))
                && source.State() == Drop(old(source.State()), copied)
      ensures copied > 0 <==> source != this && count > 0 && old(Held(source.State())) > 0 && old(Held(State())) < cap
    {
      if count == 0 || source == this {
        if source != this { NothingMoves(State(), source.State(), count); }
        return 0;
      }
      var amount := Min(count, Min(Occupied(source.read, source.write, source.cap), cap - Occupied(read, write, cap)));
      if amount == 0 {
        NothingMoves(State(), source.State(), count);
        return 0;
      }
      SameAmount(State(), source.State(), count);
      copied := MoveFrom(source, amount);
    }

    /** Copies, then advances both indices. */
    method MoveFrom(source: Ring, amount: nat) returns (copied: nat)
      requires Valid() && source.Valid() && source != this && source.buf != buf
      requires amount <= Held(source.State()) && amount <= cap - Held(State())
      modifies this`write, buf, source`read
      ensures Valid() && source.Valid() && copied == SpliceLength(old(State()), old(source.State()), amount)
      ensures State() == Append(old(State()), Spliced(old(State()), old(source.State()), amount))
      ensures source.State() == Drop(old(source.State()), copied)
    {
      SpliceMoves(State(), source.State(), amount);
      copied := CopyFrom(source, amount);
      source.read := Advance(source.read, copied, source.cap);
      write := Advance(write, copied, cap);
    }

    /** Copies a prefix of the source's contents into the vacant spans; no index moves yet. */
    method CopyFrom(source: Ring, amount: nat) returns (copied: nat)
      requires Valid() && source.Valid() && source.buf != buf
      requires amount <= Occupied(source.read, source.write, source.cap) && amount <= cap - Occupied(read, write, cap)
      modifies buf
      ensures copied == Min(amount, Max(OccupiedSpans(source.read, source.write, source.cap).0.length,
                                        VacantSpans(read, write, cap).0.length))
      ensures var (head, tail) := VacantSpans(read, write, cap);
              buf[..] == Fill(old(buf[..]), head, tail, View(source.buf[..], Start(source.read, source.cap), copied))
    {
      var (srcHead, srcTail) := OccupiedSpans(source.read, source.write, source.cap);
      var (dstHead, dstTail) := VacantSpans(read, write, cap);
      copied := CopySlices(source.buf, srcHead, srcTail, buf, dstHead, dstTail, amount);
      ghost var items := View(source.buf[..], Start(source.read, source.cap), copied);
      forall j | 0 <= j < copied ensures buf[At(dstHead, dstTail, j)] == items[j] {
        assert At(srcHead, srcTail, j) == Wrapped(Start(source.read, source.cap), j, source.cap);
      }
      WrittenIsFill(old(buf[..]), buf[..], dstHead, dstTail, items);
    }
  }

  /** Asking for what can move is asking for as much as was asked for. */
  lemma SameAmount(dst: RingState, src: RingState, count: nat)
    requires IsRing(dst) && IsRing(src)
    ensures var amount := Min(count, Min(Held(src), |dst.bytes| - Held(dst)));
            && SpliceLength(dst, src, amount) == SpliceLength(dst, src, count)
            && Spliced(dst, src, amount) == Spliced(dst, src, count)
            && (SpliceLength(dst, src, count) > 0 <==> amount > 0)
  {
  }

  lemma NothingMoves(dst: RingState, src: RingState, count: nat)
    requires IsRing(dst) && IsRing(src) && SpliceLength(dst, src, count) == 0
    ensures Append(dst, Spliced(dst, src, count)) == dst && Drop(src, 0) == src
  {
    assert Spliced(dst, src, count) == [];
    var (head, tail) := VacantSpans(dst.read, dst.write, |dst.bytes|);
    FillIsWritten(dst.bytes, head, tail, []);
    WrittenIsFill(dst.bytes, dst.bytes, head, tail, []);
  }
}
