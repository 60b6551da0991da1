/**
 `process_vm_readv`: a loop over two cursors that copies page by page from another process,
 proved to copy the joined remote buffers into the joined local ones, up to the first fault.
 */
module ProcessVm {

  import opened Numbers
  import opened PageFrames

  type Page = p: seq<Byte> | |p| == PAGE_SIZE witness ZeroPage()

  /** What `get_page` gives: the page's bytes, or why it cannot. */
  datatype Fetched = Fetched(page: Page) | Unavailable(code: nat)

  /** The remote address space, by page number. */
  type Remote = nat -> Fetched

  datatype Outcome = Copied(count: nat) | RemoteFault(code: nat) | LocalFault

  datatype IoVec = IoVec(base: nat, len: nat)

  // ----- Joined buffers -----

  /** The addresses of the buffers, one after the other. */
  function Addresses(iovs: seq<IoVec>): seq<nat> {
    if iovs == [] then []
    else
      var last := iovs[|iovs| - 1];
      Addresses(iovs[..|iovs| - 1]) + seq(last.len, i requires 0 <= i => last.base + i)
  }

  /** From position `t` on, `c` of the addresses run on from `base`. */
  ghost predicate RunsOn(addrs: seq<nat>, t: nat, base: nat, c: nat) {
    t + c <= |addrs| && forall i :: t <= i < t + c ==> addrs[i] == base + (i - t)
  }

  /** How many bytes lie before buffer `idx`. */
  ghost function Before(iovs: seq<IoVec>, idx: nat): nat
    requires idx <= |iovs|
  {
    if idx == 0 then 0 else Before(iovs, idx - 1) + iovs[idx - 1].len
  }

  lemma {:induction false} PrefixAddresses(iovs: seq<IoVec>, idx: nat)
    requires idx <= |iovs|
    ensures Addresses(iovs[..idx]) <= Addresses(iovs)
  {
    if idx == |iovs| {
      assert iovs[..idx] == iovs;
    } else {
      var n := |iovs| - 1;
      assert iovs[..n][..idx] == iovs[..idx];
      PrefixAddresses(iovs[..n], idx);
    }
  }

  lemma {:induction false} BeforeCounts(iovs: seq<IoVec>, idx: nat)
    requires idx <= |iovs|
    ensures Before(iovs, idx) == |Addresses(iovs[..idx])|
  {
    if idx > 0 {
      assert iovs[..idx][..idx - 1] == iovs[..idx - 1];
      BeforeCounts(iovs, idx - 1);
    }
  }

  /** A cursor inside the buffers, `t` bytes from their start. */
  ghost predicate CursorAt(iovs: seq<IoVec>, idx: nat, off: nat, t: nat) {
    && idx <= |iovs|
    && (if idx < |iovs| then off <= iovs[idx].len else off == 0)
    && t == Before(iovs, idx) + off
  }

  lemma CursorEnds(iovs: seq<IoVec>, off: nat, t: nat)
    requires CursorAt(iovs, |iovs|, off, t)
    ensures t == |Addresses(iovs)|
  {
    assert iovs[..|iovs|] == iovs;
    BeforeCounts(iovs, |iovs|);
  }

  /** The addresses under a cursor run on to the end of its buffer. */
  lemma UnderCursor(iovs: seq<IoVec>, idx: nat, off: nat, t: nat, c: nat)
    requires idx < |iovs| && CursorAt(iovs, idx, off, t) && off + c <= iovs[idx].len
    ensures RunsOn(Addresses(iovs), t, iovs[idx].base + off, c)
  {
    BeforeCounts(iovs, idx);
    assert iovs[..idx + 1][..idx] == iovs[..idx];
    PrefixAddresses(iovs, idx + 1);
  }

  // ----- Copies -----

  function Peek(remote: Remote, va: nat): Byte {
    var got := remote(va / PAGE_SIZE);
    if got.Fetched? then got.page[va % PAGE_SIZE] else 0
  }

  /** Memory after the first `k` bytes are stored, in order. */
  ghost function Stored(remote: Remote, from: seq<nat>, to: seq<nat>, mem: map<nat, Byte>, k: nat): map<nat, Byte>
    requires k <= |from| && k <= |to|
  {
    if k == 0 then mem
    else Stored(remote, from, to, mem, k - 1)[to[k - 1] := Peek(remote, from[k - 1])]
  }

  /** Memory after `n` bytes of `data` are written at `dest`. */
  ghost function Put(mem: map<nat, Byte>, dest: nat, data: seq<Byte>, n: nat): map<nat, Byte>
    requires n <= |data|
  {
    if n == 0 then mem else Put(mem, dest, data, n - 1)[dest + n - 1 := data[n - 1]]
  }

  ghost predicate Matches(remote: Remote, va: nat, data: seq<Byte>) {
    forall i :: 0 <= i < |data| ==> data[i] == Peek(remote, va + i)
  }

  lemma {:induction false} StoreRun(
    remote: Remote, from: seq<nat>, to: seq<nat>, mem: map<nat, Byte>,
    t: nat, va: nat, dest: nat, data: seq<Byte>, n: nat)
    requires n <= |data| && Matches(remote, va, data)
    requires RunsOn(from, t, va, |data|) && RunsOn(to, t, dest, |data|)
    ensures Stored(remote, from, to, mem, t + n) == Put(Stored(remote, from, to, mem, t), dest, data, n)
  {
    if n > 0 {
      StoreRun(remote, from, to, mem, t, va, dest, data, n - 1);
      assert from[t + n - 1] == va + (n - 1) && to[t + n - 1] == dest + n - 1;
    }
  }

  ghost predicate Distinct(addrs: seq<nat>) {
    forall j, k :: 0 <= j < k < |addrs| ==> addrs[j] != addrs[k]
  }

  /** With no address twice, every address keeps the byte stored there. */
  lemma {:induction false} StoredInPlace(
    remote: Remote, from: seq<nat>, to: seq<nat>, mem: map<nat, Byte>, k: nat, i: nat)
    requires i < k <= |from| && k <= |to| && Distinct(to)
    ensures var after := Stored(remote, from, to, mem, k);
            to[i] in after && after[to[i]] == Peek(remote, from[i])
  {
    if i < k - 1 {
      StoredInPlace(remote, from, to, mem, k - 1, i);
    }
  }

  lemma {:induction false} StoredElsewhere(
    remote: Remote, from: seq<nat>, to: seq<nat>, mem: map<nat, Byte>, k: nat, va: nat)
    requires k <= |from| && k <= |to| && va !in to[..k] && va in mem
    ensures var after := Stored(remote, from, to, mem, k);
            va in after && after[va] == mem[va]
  {
    if k > 0 {
      assert to[..k][k - 1] == to[k - 1] && forall j :: 0 <= j < k - 1 ==> to[..k - 1][j] == to[..k][j];
      StoredElsewhere(remote, from, to, mem, k - 1, va);
    }
  }

  // ----- Faults -----

  /** Both ends of a byte can be reached. */
  ghost predicate Good(remote: Remote, writable: set<nat>, from: nat, to: nat) {
    remote(from / PAGE_SIZE).Fetched? && to in writable
  }

  ghost predicate AllGood(remote: Remote, writable: set<nat>, from: seq<nat>, to: seq<nat>, k: nat)
    requires k <= |from| && k <= |to|
  {
    forall i :: 0 <= i < k ==> Good(remote, writable, from[i], to[i])
  }

  /** Some byte of the next page's worth cannot be reached. */
  ghost predicate FaultNear(remote: Remote, writable: set<nat>, from: seq<nat>, to: seq<nat>, k: nat) {
    exists p :: k <= p < k + PAGE_SIZE && p < |from| && p < |to| && !Good(remote, writable, from[p], to[p])
  }

  /** The first `k` bytes are in place: both ends reached, stored in order. */
  ghost predicate Done(
    remote: Remote, writable: set<nat>, from: seq<nat>, to: seq<nat>,
    before: map<nat, Byte>, after: map<nat, Byte>, k: nat)
  {
    && k <= |from| && k <= |to|
    && AllGood(remote, writable, from, to, k)
    && after == Stored(remote, from, to, before, k)
  }

  // ----- Chunks -----

  /** A chunk that fits the rest of a page lies in that one page. */
  lemma ChunkInPage(va: nat, c: nat, i: nat)
    requires i < c <= PAGE_SIZE - va % PAGE_SIZE
    ensures (va + i) / PAGE_SIZE == va / PAGE_SIZE && (va + i) % PAGE_SIZE == va % PAGE_SIZE + i
  {
    assert va + i == va / PAGE_SIZE * PAGE_SIZE + (va % PAGE_SIZE + i);
  }

  /** The caller's memory; some of its addresses cannot be written. */
  class UserMemory {
    var bytes: map<nat, Byte>
    const writable: set<nat>

    constructor (bytes: map<nat, Byte>, writable: set<nat>)
      ensures this.bytes == bytes && this.writable == writable
    {
      this.bytes := bytes;
      this.writable := writable;
    }

    /** `copy_to_user_slice`: bytes go out in order until one faults. */
    method CopyOut(dest: nat, data: seq<Byte>) returns (n: nat)
      modifies this`bytes
      ensures n <= |data| && bytes == Put(old(bytes), dest, data, n)
      ensures forall va :: dest <= va < dest + n ==> va in writable
      ensures n < |data| ==> dest + n !in writable
    {
      n := 0;
      while n < |data| && dest + n in writable
        invariant n <= |data| && bytes == Put(old(bytes), dest, data, n)
        invariant forall va :: dest <= va < dest + n ==> va in writable
      {
        bytes := bytes[dest + n := data[n]];
        n := n + 1;
      }
    }
  }

  /** One chunk: pin the remote page, copy out of it. */
  method CopyChunk(remote: Remote, local: UserMemory, va: nat, dest: nat, chunk: nat,
                   ghost from: seq<nat>, ghost to: seq<nat>, ghost before: map<nat, Byte>, ghost t: nat)
    returns (r: Outcome, n: nat)
    requires 0 < chunk <= PAGE_SIZE - va % PAGE_SIZE
    requires RunsOn(from, t, va, chunk) && RunsOn(to, t, dest, chunk)
    requires Done(remote, local.writable, from, to, before, local.bytes, t)
    modifies local`bytes
    ensures n <= chunk && Done(remote, local.writable, from, to, before, local.bytes, t + n)
    ensures r.Copied? ==> n == chunk
    ensures !r.Copied? ==> n < chunk && !Good(remote, local.writable, from[t + n], to[t + n])
    ensures r.RemoteFault? ==> remote(from[t] / PAGE_SIZE) == Unavailable(r.code)
  {
    assert from[t] == va;
    var got := remote(va / PAGE_SIZE);
    if got.Unavailable? {
      return RemoteFault(got.code), 0;
    }
    var off := va % PAGE_SIZE;
    var data := got.page[off..off + chunk];
    forall i | 0 <= i < chunk ensures Peek(remote, va + i) == data[i] && remote((va + i) / PAGE_SIZE).Fetched? {
      ChunkInPage(va, chunk, i);
    }
    n := local.CopyOut(dest, data);
    StoreRun(remote, from, to, before, t, va, dest, data, n);
    forall i | 0 <= i < t + n ensures Good(remote, local.writable, from[i], to[i]) {
      if t <= i {
        assert from[i] == va + (i - t) && to[i] == dest + (i - t);
        ChunkInPage(va, chunk, i - t);
      }
    }
    r := if n == chunk then Copied(n) else LocalFault;
  }

  // ----- The loop -----

  /** What the call may return for what was written. */
  ghost predicate Reported(
    remote: Remote, writable: set<nat>, from: seq<nat>, to: seq<nat>, r: Outcome, written: nat)
  {
    var n, k := Min(|from|, |to|), if r.Copied? then r.count else 0;
    && k <= written <= n
    && (r.Copied? && k == n ==> written == k)
    && (!r.Copied? || k < n ==> FaultNear(remote, writable, from, to, k))
    && (k == 0 < n ==> !r.Copied?)
    && (r.RemoteFault? ==> from != [] && remote(from[0] / PAGE_SIZE) == Unavailable(r.code))
  }

  /** A fault `n` bytes into a chunk is what the caller is told about. */
  lemma FaultReported(remote: Remote, writable: set<nat>, from: seq<nat>, to: seq<nat>, r: Outcome, t: nat, n: nat)
    requires n < PAGE_SIZE && t + n < |from| && t + n < |to| && !r.Copied?
    requires !Good(remote, writable, from[t + n], to[t + n])
    requires r.RemoteFault? ==> remote(from[t] / PAGE_SIZE) == Unavailable(r.code)
    ensures Reported(remote, writable, from, to, if t > 0 then Copied(t) else r, t + n)
  {
  }

  /** Once either list of buffers is used up, everything that could be copied was. */
  lemma EndReported(
    remote: Remote, writable: set<nat>, remoteIovs: seq<IoVec>, ri: nat, ro: nat,
    localIovs: seq<IoVec>, li: nat, lo: nat, t: nat)
    requires CursorAt(remoteIovs, ri, ro, t) && CursorAt(localIovs, li, lo, t)
    requires ri == |remoteIovs| || li == |localIovs|
    requires t <= |Addresses(remoteIovs)| && t <= |Addresses(localIovs)|
    ensures Reported(remote, writable, Addresses(remoteIovs), Addresses(localIovs), Copied(t), t)
  {
    if ri == |remoteIovs| {
      CursorEnds(remoteIovs, ro, t);
    } else {
      CursorEnds(localIovs, lo, t);
    }
  }

  /** The chunk under both cursors: it carries the copy on, or ends it with what the caller is told. */
  method CopyUnderCursors(
    remote: Remote, local: UserMemory, localIovs: seq<IoVec>, li: nat, lo: nat,
    remoteIovs: seq<IoVec>, ri: nat, ro: nat,
    chunk: nat, total: nat, ghost before: map<nat, Byte>)
    returns (r: Outcome, n: nat)
    requires ri < |remoteIovs| && CursorAt(remoteIovs, ri, ro, total) && ro + chunk <= remoteIovs[ri].len
    requires li < |localIovs| && CursorAt(localIovs, li, lo, total) && lo + chunk <= localIovs[li].len
    requires 0 < chunk <= PAGE_SIZE - (remoteIovs[ri].base + ro) % PAGE_SIZE
    requires Done(remote, local.writable, Addresses(remoteIovs), Addresses(localIovs), before, local.bytes, total)
    modifies local`bytes
    ensures Done(remote, local.writable, Addresses(remoteIovs), Addresses(localIovs), before, local.bytes, total + n)
    ensures r.Copied? ==> n == chunk
    ensures !r.Copied? ==> Reported(remote, local.writable, Addresses(remoteIovs), Addresses(localIovs),
                                    if total > 0 then Copied(total) else r, total + n)
  {
    ghost var from, to := Addresses(remoteIovs), Addresses(localIovs);
    UnderCursor(remoteIovs, ri, ro, total, chunk);
    UnderCursor(localIovs, li, lo, total, chunk);
    r, n := CopyChunk(remote, local, remoteIovs[ri].base + ro, localIovs[li].base + lo, chunk, from, to, before, total);
    if !r.Copied? {
      FaultReported(remote, local.writable, from, to, r, total, n);
    }
  }

  lemma CursorAdvances(iovs: seq<IoVec>, idx: nat, off: nat, t: nat, c: nat)
    requires idx < |iovs| && CursorAt(iovs, idx, off, t) && off + c <= iovs[idx].len
    ensures CursorAt(iovs, idx, off + c, t + c)
  {
  }

  /** A cursor at the end of its entry goes to the next one. */
  method SkipEnded(iovs: seq<IoVec>, idx: nat, off: nat, ghost t: nat) returns (nextIdx: nat, nextOff: nat)
    requires idx < |iovs| && CursorAt(iovs, idx, off, t)
    ensures CursorAt(iovs, nextIdx, nextOff, t)
    ensures if off == iovs[idx].len then nextIdx == idx + 1 && nextOff == 0 else nextIdx == idx && nextOff == off
  {
    if off == iovs[idx].len { return idx + 1, 0; }
    return idx, off;
  }

  /** How much one turn copies: up to the end of the remote page or of either vector entry. */
  function Chunk(va: nat, remaining: nat, room: nat): (chunk: nat)
    ensures chunk <= remaining && chunk <= room && chunk <= PAGE_SIZE - va % PAGE_SIZE
    ensures chunk == 0 <==> remaining == 0 || room == 0
  {
    Min(PAGE_SIZE - va % PAGE_SIZE, Min(remaining, room))
  }

  /** The loop of `sys_process_vm_readv`; `written` passes the count only inside a chunk that faulted. */
  method CopyVectors(remote: Remote, local: UserMemory, localIovs: seq<IoVec>, remoteIovs: seq<IoVec>)
    returns (r: Outcome, ghost written: nat)
    modifies local`bytes
    ensures var from, to := Addresses(remoteIovs), Addresses(localIovs);
            && Done(remote, local.writable, from, to, old(local.bytes), local.bytes, written)
            && Reported(remote, local.writable, from, to, r, written)
  {
    ghost var from, to := Addresses(remoteIovs), Addresses(localIovs);
    var total: nat, li: nat, lo: nat, ri: nat, ro: nat := 0, 0, 0, 0, 0;
    while ri < |remoteIovs| && li < |localIovs|
      invariant CursorAt(remoteIovs, ri, ro, total) && CursorAt(localIovs, li, lo, total)
      invariant Done(remote, local.writable, from, to, old(local.bytes), local.bytes, total)
      decreases |from| - total, |remoteIovs| - ri + |localIovs| - li
    {
      var remoteRemaining, localRemaining := remoteIovs[ri].len - ro, localIovs[li].len - lo;
      var va := remoteIovs[ri].base + ro;
      var chunk := Chunk(va, remoteRemaining, localRemaining);
      if chunk == 0 {
        ri, ro := SkipEnded(remoteIovs, ri, ro, total);
        li, lo := SkipEnded(localIovs, li, lo, total);
        continue;
      }
      CursorAdvances(remoteIovs, ri, ro, total, chunk);
      CursorAdvances(localIovs, li, lo, total, chunk);
      var got, n :=
        CopyUnderCursors(remote, local, localIovs, li, lo, remoteIovs, ri, ro, chunk, total, old(local.bytes));
      if !got.Copied? {
        return if total > 0 then Copied(total) else got, total + n;
      }
      total, ro, lo := total + chunk, ro + chunk, lo + chunk;
    }
    EndReported(remote, local.writable, remoteIovs, ri, ro, localIovs, li, lo, total);
    return Copied(total), total;
  }

  /** Everything was copied exactly if nothing on the way faults. */
  lemma CompleteIffGood(remote: Remote, writable: set<nat>, from: seq<nat>, to: seq<nat>,
                        before: map<nat, Byte>, after: map<nat, Byte>, r: Outcome, written: nat)
    requires Done(remote, writable, from, to, before, after, written)
    requires Reported(remote, writable, from, to, r, written)
    ensures var n := Min(|from|, |to|);
            r == Copied(n) <==> AllGood(remote, writable, from, to, n)
  {
  }

  /**
   `sys_process_vm_readv` once its arguments are copied in: it copies the joined remote buffers into the
   joined local ones, all of them if and only if nothing faults, and otherwise up to the page that does.
   */
  method ProcessVmReadv(remote: Remote, local: UserMemory, localIovs: seq<IoVec>, remoteIovs: seq<IoVec>)
    returns (r: Outcome, ghost written: nat)
    modifies local`bytes
    ensures var from, to := Addresses(remoteIovs), Addresses(localIovs);
            var n := Min(|from|, |to|);
            && Reported(remote, local.writable, from, to, r, written)
            && (r == Copied(n) <==> AllGood(remote, local.writable, from, to, n))
            && (Distinct(to) ==> forall i :: 0 <= i < written ==>
                                               to[i] in local.bytes && local.bytes[to[i]] == Peek(remote, from[i]))
            && (forall va :: va in old(local.bytes) && va !in to[..written] ==>
                               va in local.bytes && local.bytes[va] == old(local.bytes)[va])
  {
    r, written := CopyVectors(remote, local, localIovs, remoteIovs);
    ghost var from, to := Addresses(remoteIovs), Addresses(localIovs);
    CompleteIffGood(remote, local.writable, from, to, old(local.bytes), local.bytes, r, written);
    forall i | Distinct(to) && 0 <= i < written
      ensures to[i] in local.bytes && local.bytes[to[i]] == Peek(remote, from[i])
    {
      StoredInPlace(remote, from, to, old(local.bytes), written, i);
    }
    forall va | va in old(local.bytes) && va !in to[..written]
      ensures va in local.bytes && local.bytes[va] == old(local.bytes)[va]
    {
      StoredElsewhere(remote, from, to, old(local.bytes), written, va);
    }
  }
}
