/** `getdents64`: a directory read in pieces of any sizes is listed once, whole and in order. */
module DirectoryReads {

  import opened PageFrames
  import opened LittleEndian
  import opened NulTerminated

  const HEADER: nat := 19
  const ENTRY_BUFFER: nat := 512

  datatype Dirent = Dirent(ino: nat, name: seq<Byte>, kind: Byte)

  /** An entry that the kernel's entry buffer and the header's fields can hold. */
  ghost predicate Listable(d: Dirent) {
    0 !in d.name && RecLen(d) <= ENTRY_BUFFER && d.ino < 0x1_0000_0000_0000_0000
  }

  ghost predicate AllListable(dir: seq<Dirent>) {
    |dir| < 0x1_0000_0000_0000_0000 && forall i :: 0 <= i < |dir| ==> Listable(dir[i])
  }

  // ----- Records -----

  /** The length of a record, padded to a multiple of eight. */
  function RecLen(d: Dirent): (n: nat)
    ensures n % 8 == 0 && HEADER + |d.name| < n <= HEADER + |d.name| + 8
  {
    (HEADER + |d.name| + 1 + 7) / 8 * 8
  }

  function Padded(d: Dirent): (bytes: seq<Byte>)
    ensures |bytes| == RecLen(d) - HEADER
  {
    var n := RecLen(d) - HEADER;
    seq(n, i requires 0 <= i < n => if i < |d.name| then d.name[i] else 0)
  }

  function Head(d: Dirent, off: nat): (bytes: seq<Byte>)
    ensures |bytes| == HEADER
  {
    Encode(d.ino, 8) + Encode(off, 8) + Encode(RecLen(d), 2) + [d.kind]
  }

  function Record(d: Dirent, off: nat): (bytes: seq<Byte>)
    ensures |bytes| == RecLen(d)
  {
    Head(d, off) + Padded(d)
  }

  /** The records of entries `from` up to `to`; a record's offset resumes after it. */
  function Records(dir: seq<Dirent>, from: nat, to: nat): seq<Byte>
    requires from <= to <= |dir|
  {
    if from == to then [] else Records(dir, from, to - 1) + Record(dir[to - 1], to)
  }

  // ----- A reader -----

  /** An entry as a reader sees it, with the offset from which to resume after it. */
  datatype Entry = Entry(dirent: Dirent, off: nat)

  /** The entries `from` up to `to` with their offsets. */
  function Entries(dir: seq<Dirent>, from: nat, to: nat): seq<Entry>
    requires from <= to <= |dir|
  {
    seq(to - from, i requires 0 <= i < to - from => Entry(dir[from + i], from + i + 1))
  }

  function Parse(bytes: seq<Byte>): Entry
    requires HEADER <= |bytes|
  {
    Entry(Dirent(Decode(bytes[0..8]), UpToNul(bytes[HEADER..]), bytes[18]), Decode(bytes[8..16]))
  }

  /** Reads records one after the other by their length; nothing if the bytes do not divide so. */
  function ParseAll(bytes: seq<Byte>): Option<seq<Entry>>
    decreases |bytes|
  {
    if bytes == [] then Some([])
    else if |bytes| < HEADER then None
    else
      var len := Decode(bytes[16..18]);
      if len < HEADER || len > |bytes| then None
      else
        var rest := ParseAll(bytes[len..]);
        if rest.None? then None else Some([Parse(bytes[..len])] + rest.value)
  }

  lemma Fields(a: seq<Byte>, b: seq<Byte>, c: seq<Byte>, k: Byte, more: seq<Byte>)
    requires |a| == |b| == 8 && |c| == 2
    ensures var bytes := a + b + c + [k] + more;
            bytes[0..8] == a && bytes[8..16] == b && bytes[16..18] == c && bytes[18] == k && bytes[HEADER..] == more
  {
  }

  lemma HeadFields(d: Dirent, off: nat, more: seq<Byte>)
    requires Listable(d) && off < 0x1_0000_0000_0000_0000
    ensures var bytes := Head(d, off) + more;
            && Decode(bytes[0..8]) == d.ino && Decode(bytes[8..16]) == off
            && Decode(bytes[16..18]) == RecLen(d) && bytes[18] == d.kind
            && bytes[HEADER..] == more
  {
    Widths();
    RoundTrip(d.ino, 8);
    RoundTrip(off, 8);
    assert Pow256(2) == 65536;
    RoundTrip(RecLen(d), 2);
    Fields(Encode(d.ino, 8), Encode(off, 8), Encode(RecLen(d), 2), d.kind, more);
  }

  lemma RecordRoundTrip(d: Dirent, off: nat)
    requires Listable(d) && off < 0x1_0000_0000_0000_0000
    ensures Parse(Record(d, off)) == Entry(d, off)
  {
    HeadFields(d, off, Padded(d));
    UpToNulEnds(Padded(d), |d.name|);
    assert Padded(d)[..|d.name|] == d.name;
  }

  /** The first record of a listing comes off whole, whatever follows it. */
  lemma FirstRecord(d: Dirent, off: nat, more: seq<Byte>, rest: seq<Entry>)
    requires Listable(d) && off < 0x1_0000_0000_0000_0000 && ParseAll(more) == Some(rest)
    ensures ParseAll(Record(d, off) + more) == Some([Entry(d, off)] + rest)
  {
    var bytes := Record(d, off) + more;
    assert bytes == Head(d, off) + (Padded(d) + more);
    HeadFields(d, off, Padded(d) + more);
    RecordRoundTrip(d, off);
    assert bytes[..RecLen(d)] == Record(d, off) && bytes[RecLen(d)..] == more;
  }

  lemma Associate(a: seq<Byte>, b: seq<Byte>, c: seq<Byte>)
    ensures a + (b + c) == (a + b) + c
  {
  }

  lemma RecordsOne(dir: seq<Dirent>, from: nat)
    requires from < |dir|
    ensures Records(dir, from, from + 1) == Record(dir[from], from + 1)
  {
    assert Records(dir, from, from) == [];
  }

  lemma RecordsFromFront(dir: seq<Dirent>, from: nat, to: nat)
    requires from < to <= |dir|
    ensures Records(dir, from, to) == Record(dir[from], from + 1) + Records(dir, from + 1, to)
  {
    RecordsOne(dir, from);
    RecordsJoin(dir, from, from + 1, to);
  }

  lemma {:induction false} RecordsJoin(dir: seq<Dirent>, from: nat, mid: nat, to: nat)
    requires from <= mid <= to <= |dir|
    ensures Records(dir, from, mid) + Records(dir, mid, to) == Records(dir, from, to)
  {
    if mid < to {
      RecordsJoin(dir, from, mid, to - 1);
      Associate(Records(dir, from, mid), Records(dir, mid, to - 1), Record(dir[to - 1], to));
    }
  }

  /** Parsing records recovers the entries and their offsets. */
  lemma {:induction false} ListingRoundTrip(dir: seq<Dirent>, from: nat, to: nat)
    requires from <= to <= |dir| && AllListable(dir)
    ensures ParseAll(Records(dir, from, to)) == Some(Entries(dir, from, to))
    decreases |dir| - from
  {
    if from == to {
      assert Records(dir, from, to) == [] && Entries(dir, from, to) == [];
    } else {
      var more, rest := Records(dir, from + 1, to), Entries(dir, from + 1, to);
      assert Entries(dir, from, to) == [Entry(dir[from], from + 1)] + rest;
      ListingRoundTrip(dir, from + 1, to);
      RecordsFromFront(dir, from, to);
      FirstRecord(dir[from], from + 1, more, rest);
    }
  }

  // ----- One call -----

  /** How many entries from `pos` on fit whole. */
  function Fit(dir: seq<Dirent>, pos: nat, size: nat): (n: nat)
    ensures pos <= |dir| ==> pos + n <= |dir|
    decreases |dir| - pos
  {
    if pos >= |dir| || RecLen(dir[pos]) > size then 0 else 1 + Fit(dir, pos + 1, size - RecLen(dir[pos]))
  }

  /** The length of the records of entries `from` up to `to`. */
  function Bytes(dir: seq<Dirent>, from: nat, to: nat): nat
    requires from <= to <= |dir|
    decreases |dir| - from
  {
    if from == to then 0 else RecLen(dir[from]) + Bytes(dir, from + 1, to)
  }

  lemma {:induction false} BytesIsLength(dir: seq<Dirent>, from: nat, to: nat)
    requires from <= to <= |dir|
    ensures |Records(dir, from, to)| == Bytes(dir, from, to)
    decreases |dir| - from
  {
    if from < to {
      RecordsFromFront(dir, from, to);
      BytesIsLength(dir, from + 1, to);
    }
  }

  lemma {:induction false} FitCounts(dir: seq<Dirent>, pos: nat, size: nat)
    requires pos <= |dir|
    ensures var n := Fit(dir, pos, size);
            Bytes(dir, pos, pos + n) <= size && (pos + n < |dir| ==> Bytes(dir, pos, pos + n + 1) > size)
    decreases |dir| - pos
  {
    if pos < |dir| && RecLen(dir[pos]) <= size {
      FitCounts(dir, pos + 1, size - RecLen(dir[pos]));
    }
  }

  /** A call lists as many entries as fit: their records are no longer than the buffer, one more would be. */
  lemma FitIsMost(dir: seq<Dirent>, pos: nat, size: nat)
    requires pos <= |dir|
    ensures var n := Fit(dir, pos, size);
            && |Records(dir, pos, pos + n)| <= size
            && (pos + n < |dir| ==> |Records(dir, pos, pos + n + 1)| > size)
  {
    var n := Fit(dir, pos, size);
    FitCounts(dir, pos, size);
    BytesIsLength(dir, pos, pos + n);
    if pos + n < |dir| { BytesIsLength(dir, pos, pos + n + 1); }
  }

  datatype Outcome = Listed(bytes: nat) | InvalidValue

  /** An open directory and its peekable stream of entries. */
  class DirIterator {
    const dir: seq<Dirent>
    var pos: nat
    var index: nat
    var next: Option<(Dirent, nat)>

    ghost predicate Valid()
      reads this
    {
      && next == (if pos < |dir| then Some((dir[pos], pos + 1)) else None)
      && index == (if pos < |dir| then pos + 1 else pos)
    }

    /** `readdir` from a file position. */
    constructor (dir: seq<Dirent>, pos: nat)
      ensures Valid() && this.dir == dir && this.pos == pos
    {
      this.dir, this.pos := dir, pos;
      next := if pos < |dir| then Some((dir[pos], pos + 1)) else None;
      index := if pos < |dir| then pos + 1 else pos;
    }

    /** Consumes the entry peeked at; the position becomes that entry's offset. */
    method Next() returns (ret: Option<(Dirent, nat)>)
      requires Valid()
      modifies this
      ensures Valid() && ret == old(next) && pos == if ret.Some? then old(pos) + 1 else old(pos)
    {
      ret := next;
      if index < |dir| {
        next := Some((dir[index], index + 1));
        index := index + 1;
      } else {
        next := None;
      }
      if ret.Some? {
        pos := ret.value.1;
      }
    }
  }

  /** `sys_getdents64` on an open directory at `start`; past the end there is nothing to list. */
  method Getdents(dir: seq<Dirent>, start: nat, size: nat) returns (r: Outcome, out: seq<Byte>, pos: nat)
    requires AllListable(dir)
    ensures pos == start + Fit(dir, start, size) && |out| <= size
    ensures start <= |dir| ==> pos <= |dir| && out == Records(dir, start, pos)
    ensures start > |dir| ==> out == []
    ensures r.InvalidValue? <==> pos == start < |dir|
    ensures r.Listed? ==> r.bytes == |out|
  {
    var entries := new DirIterator(dir, start);
    out := [];
    while entries.next.Some?
      invariant fresh(entries) && entries.dir == dir && entries.Valid() && start <= entries.pos
      invariant if start <= |dir| then entries.pos <= |dir| && out == Records(dir, start, entries.pos)
                else entries.pos == start && out == []
      invariant |out| <= size
      invariant entries.pos + Fit(dir, entries.pos, size - |out|) == start + Fit(dir, start, size)
      decreases |dir| - entries.pos
    {
      var d := entries.next.value.0;
      if RecLen(d) > size - |out| {
        break;
      }
      var consumed := entries.Next();
      out := out + Record(consumed.value.0, consumed.value.1);
    }
    pos := entries.pos;
    r := if out == [] && entries.next.Some? then InvalidValue else Listed(|out|);
  }

  // ----- Any sequence of calls -----

  /** The position after calls with these buffer sizes, from the start of the directory. */
  function Position(dir: seq<Dirent>, sizes: seq<nat>): (pos: nat)
    ensures pos <= |dir|
  {
    if sizes == [] then 0
    else
      var before := Position(dir, sizes[..|sizes| - 1]);
      before + Fit(dir, before, sizes[|sizes| - 1])
  }

  /** Everything that the calls wrote, one after the other. */
  function Output(dir: seq<Dirent>, sizes: seq<nat>): seq<Byte> {
    if sizes == [] then []
    else
      var n := |sizes| - 1;
      Output(dir, sizes[..n]) + Records(dir, Position(dir, sizes[..n]), Position(dir, sizes))
  }

  lemma {:induction false} OutputIsRecords(dir: seq<Dirent>, sizes: seq<nat>)
    ensures Output(dir, sizes) == Records(dir, 0, Position(dir, sizes))
  {
    if sizes != [] {
      var n := |sizes| - 1;
      OutputIsRecords(dir, sizes[..n]);
      RecordsJoin(dir, 0, Position(dir, sizes[..n]), Position(dir, sizes));
    }
  }

  /** Calls with any buffer sizes list a prefix of the directory, each entry once and in order. */
  lemma CallsListAPrefix(dir: seq<Dirent>, sizes: seq<nat>)
    requires AllListable(dir)
    ensures ParseAll(Output(dir, sizes)) == Some(Entries(dir, 0, Position(dir, sizes)))
  {
    OutputIsRecords(dir, sizes);
    ListingRoundTrip(dir, 0, Position(dir, sizes));
  }

  /** A listing resumed at the offset of any entry listed before goes on right after that entry. */
  lemma OffsetResumes(dir: seq<Dirent>, to: nat, k: nat)
    requires AllListable(dir) && k < to <= |dir|
    ensures var all := ParseAll(Records(dir, 0, to));
            && all.Some? && |all.value| == to && all.value[k].off <= to
            && ParseAll(Records(dir, all.value[k].off, to)) == Some(all.value[k + 1..])
  {
    ListingRoundTrip(dir, 0, to);
    ListingRoundTrip(dir, k + 1, to);
    EntriesTail(dir, to, k);
  }

  lemma EntriesTail(dir: seq<Dirent>, to: nat, k: nat)
    requires k < to <= |dir|
    ensures Entries(dir, 0, to)[k].off == k + 1 && Entries(dir, 0, to)[k + 1..] == Entries(dir, k + 1, to)
  {
  }

  /** With buffers that hold any one entry, as many calls as entries list the whole directory. */
  lemma {:induction false} EnoughCallsListAll(dir: seq<Dirent>, sizes: seq<nat>)
    requires AllListable(dir) && forall i :: 0 <= i < |sizes| ==> sizes[i] >= ENTRY_BUFFER
    ensures Position(dir, sizes) >= if |sizes| < |dir| then |sizes| else |dir|
  {
    if sizes != [] {
      var n := |sizes| - 1;
      EnoughCallsListAll(dir, sizes[..n]);
      var before := Position(dir, sizes[..n]);
      assert before < |dir| ==> Fit(dir, before, sizes[n]) >= 1;
    }
  }
}
