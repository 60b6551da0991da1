/** Physical page frames, their reference counts, and the counting of references. */
module PageFrames {

  const PAGE_SIZE: nat := 4096

  type Byte = b: int | 0 <= b < 256

  type Frame = nat

  datatype Option<+T> = None | Some(value: T)

  /** What the page allocator knows of an allocated frame, and what the frame holds. */
  datatype FrameInfo = FrameInfo(count: nat, bytes: seq<Byte>)

  type Frames = map<Frame, FrameInfo>

  function ZeroPage(): seq<Byte> {
    seq(PAGE_SIZE, i => 0)
  }

  /** The reference count of a frame; a free frame has none. */
  function CountOf(frames: Frames, f: Frame): nat {
    if f in frames then frames[f].count else 0
  }

  /** A fresh allocation starts with one reference. */
  function AllocFrame(frames: Frames, f: Frame, bytes: seq<Byte>): Frames {
    frames[f := FrameInfo(1, bytes)]
  }

  function AddReference(frames: Frames, f: Frame): Frames
    requires f in frames
  {
    frames[f := frames[f].(count := frames[f].count + 1)]
  }

  /** Dropping the last reference frees the frame. */
  function DropReference(frames: Frames, f: Frame): Frames
    requires f in frames
  {
    if frames[f].count > 1 then frames[f := frames[f].(count := frames[f].count - 1)] else frames - {f}
  }

  /** Giving a reference back restores the allocator, whether the page was new or shared. */
  lemma DropUndoesClaim(frames: Frames, f: Frame, bytes: seq<Byte>)
    ensures f !in frames ==> DropReference(AllocFrame(frames, f, bytes), f) == frames
    ensures f in frames && frames[f].count > 0 ==> DropReference(AddReference(frames, f), f) == frames
  {
  }

  /** How many entries of a table of owners refer to a frame. */
  ghost function Refs<K>(owners: map<K, Frame>, f: Frame): nat {
    |set k | k in owners && owners[k] == f|
  }

  lemma RefsInsert<K>(owners: map<K, Frame>, k: K, v: Frame)
    requires k !in owners
    ensures forall f :: Refs(owners[k := v], f) == Refs(owners, f) + (if f == v then 1 else 0)
  {
    var grown := owners[k := v];
    forall f ensures Refs(grown, f) == Refs(owners, f) + (if f == v then 1 else 0) {
      var before := set x | x in owners && owners[x] == f;
      var after := set x | x in grown && grown[x] == f;
      assert after == if f == v then before + {k} else before;
    }
  }

  lemma RefsRemove<K>(owners: map<K, Frame>, k: K)
    requires k in owners
    ensures forall f :: Refs(owners - {k}, f) == Refs(owners, f) - (if f == owners[k] then 1 else 0)
  {
    var rest := owners - {k};
    RefsInsert(rest, k, owners[k]);
    assert rest[k := owners[k]] == owners;
  }

  lemma RefsReplace<K>(owners: map<K, Frame>, k: K, v: Frame)
    requires k in owners
    ensures forall f :: Refs(owners[k := v], f)
                        == Refs(owners, f) - (if f == owners[k] then 1 else 0) + (if f == v then 1 else 0)
  {
    RefsRemove(owners, k);
    RefsInsert(owners - {k}, k, v);
    assert (owners - {k})[k := v] == owners[k := v];
  }

  lemma RefsPositive<K>(owners: map<K, Frame>, k: K)
    requires k in owners
    ensures Refs(owners, owners[k]) >= 1
  {
    var holders := set x | x in owners && owners[x] == owners[k];
    assert k in holders;
    assert |holders - {k}| == |holders| - 1;
  }

  lemma RefsWitness<K>(owners: map<K, Frame>, f: Frame) returns (k: K)
    requires Refs(owners, f) > 0
    ensures k in owners && owners[k] == f
  {
    var holders := set x | x in owners && owners[x] == f;
    k :| k in holders;
  }

  /** A frame with one reference in a table is referred to by one entry. */
  lemma RefsUnique<K>(owners: map<K, Frame>, k: K, other: K)
    requires k in owners && other in owners && k != other && owners[k] == owners[other]
    ensures Refs(owners, owners[k]) >= 2
  {
    RefsRemove(owners, k);
    RefsPositive(owners - {k}, other);
  }
}
