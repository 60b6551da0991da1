/** The file descriptor table: a search that starts at a hint finds what a scan from zero would. */
module FdTables {

  import opened PageFrames

  const MAX_FDS: nat := 8192

  datatype Entry = Entry(file: nat, cloexec: bool)

  /** A slot per descriptor, and where the search for a free one starts. */
  datatype Table = Table(entries: seq<Option<Entry>>, hint: nat)

  function Empty(): Table {
    Table([], 0)
  }

  // ----- Operations -----

  /** The first free slot from `i` on, or the length. */
  function FindFrom(entries: seq<Option<Entry>>, i: nat): (r: nat)
    requires i <= |entries|
    ensures i <= r <= |entries|
    ensures forall j :: i <= j < r ==> entries[j].Some?
    ensures r < |entries| ==> entries[r].None?
    decreases |entries| - i
  {
    if i == |entries| || entries[i].None? then i else FindFrom(entries, i + 1)
  }

  function Search(t: Table, start: nat): nat {
    if start <= |t.entries| then FindFrom(t.entries, start) else |t.entries|
  }

  function Put(entries: seq<Option<Entry>>, fd: nat, entry: Entry): seq<Option<Entry>> {
    if fd < |entries| then entries[fd := Some(entry)]
    else entries + seq(fd - |entries|, i => None) + [Some(entry)]
  }

  /** The descriptor of an insertion; nothing if there are too many files. */
  function InsertFd(t: Table): Option<nat> {
    var fd := Search(t, t.hint);
    if fd < |t.entries| || fd < MAX_FDS then Some(fd) else None
  }

  function Insert(t: Table, entry: Entry): Table {
    var fd := InsertFd(t);
    if fd.None? then t else Table(Put(t.entries, fd.value, entry), fd.value + 1)
  }

  function InsertAt(t: Table, fd: nat, entry: Entry): Table {
    t.(entries := Put(t.entries, fd, entry))
  }

  function InsertAbove(t: Table, min: nat, file: nat): Table {
    t.(entries := Put(t.entries, Search(t, min), Entry(file, false)))
  }

  function Remove(t: Table, fd: nat): Table {
    if fd < |t.entries| && t.entries[fd].Some? then
      Table(t.entries[fd := None], if fd < t.hint then fd else t.hint)
    else t
  }

  predicate OnExec(entry: Option<Entry>) {
    entry.Some? && entry.value.cloexec
  }

  /** The descriptors below `n` that an exec closes, in order. */
  function Closing(entries: seq<Option<Entry>>, n: nat): (fds: seq<nat>)
    requires n <= |entries|
    ensures forall fd :: fd in fds ==> fd < n && OnExec(entries[fd])
    ensures forall fd :: 0 <= fd < n && OnExec(entries[fd]) ==> fd in fds
  {
    if n == 0 then [] else Closing(entries, n - 1) + (if OnExec(entries[n - 1]) then [n - 1] else [])
  }

  function RemoveEach(t: Table, fds: seq<nat>): Table {
    if fds == [] then t else Remove(RemoveEach(t, fds[..|fds| - 1]), fds[|fds| - 1])
  }

  function CloseOnExec(t: Table): Table {
    RemoveEach(t, Closing(t.entries, |t.entries|))
  }

  // ----- The invariant -----

  /** Every slot below the hint is taken. */
  ghost predicate Valid(t: Table) {
    t.hint <= |t.entries| && forall i :: 0 <= i < t.hint ==> t.entries[i].Some?
  }

  /** A scan that starts at the hint finds what a scan from zero finds. */
  lemma {:induction false} HintedIsScan(t: Table, i: nat)
    requires Valid(t) && i <= t.hint
    ensures FindFrom(t.entries, i) == FindFrom(t.entries, t.hint)
    decreases t.hint - i
  {
    if i < t.hint {
      HintedIsScan(t, i + 1);
    }
  }

  /**
   An insertion takes the lowest free descriptor and no other slot changes; it fails if and only if no slot is free
   and the table has reached its limit.
   */
  lemma InsertTakesLowest(t: Table, entry: Entry)
    requires Valid(t)
    ensures InsertFd(t).None? <==> |t.entries| >= MAX_FDS && forall i :: 0 <= i < |t.entries| ==> t.entries[i].Some?
    ensures InsertFd(t).None? ==> Insert(t, entry) == t
    ensures InsertFd(t).Some? ==>
              var fd, after := InsertFd(t).value, Insert(t, entry).entries;
              && fd == FindFrom(t.entries, 0)
              && (forall i :: 0 <= i < fd ==> t.entries[i].Some?) && (fd < |t.entries| ==> t.entries[fd].None?)
              && fd < |after| && after[fd] == Some(entry)
              && (forall i :: 0 <= i < |after| && i != fd ==> i < |t.entries| && after[i] == t.entries[i])
  {
    HintedIsScan(t, 0);
  }

  /** A file put at any descriptor: the slots in between are free, all others as before. */
  lemma PutIsExact(entries: seq<Option<Entry>>, fd: nat, entry: Entry)
    ensures var after := Put(entries, fd, entry);
            && |after| == (if fd < |entries| then |entries| else fd + 1)
            && (forall i :: 0 <= i < |after| ==>
                  after[i] == if i == fd then Some(entry) else if i < |entries| then entries[i] else None)
  {
  }

  /** Insertion above a minimum keeps to it if and only if the table is that long already. */
  lemma AboveKeepsToMinimum(t: Table, min: nat, file: nat)
    ensures Search(t, min) >= min <==> min <= |t.entries|
    ensures var fd, after := Search(t, min), InsertAbove(t, min, file).entries;
            && fd < |after| && after[fd] == Some(Entry(file, false))
            && (fd < |t.entries| ==> t.entries[fd].None?)
            && (forall i :: min <= i < fd ==> t.entries[i].Some?)
            && (forall i :: 0 <= i < |after| && i != fd ==> i < |t.entries| && after[i] == t.entries[i])
  {
  }

  lemma InsertKeeps(t: Table, entry: Entry)
    requires Valid(t)
    ensures Valid(Insert(t, entry))
  {
    InsertTakesLowest(t, entry);
  }

  lemma RemoveKeeps(t: Table, fd: nat)
    requires Valid(t)
    ensures Valid(Remove(t, fd))
  {
  }

  /** Removing in turn empties exactly the slots named. */
  lemma {:induction false} RemoveEachKeeps(t: Table, fds: seq<nat>)
    requires Valid(t)
    ensures Valid(RemoveEach(t, fds)) && |RemoveEach(t, fds).entries| == |t.entries|
    ensures forall i :: 0 <= i < |t.entries| ==>
                          RemoveEach(t, fds).entries[i] == if i in fds then None else t.entries[i]
  {
    if fds != [] {
      var n := |fds| - 1;
      RemoveEachKeeps(t, fds[..n]);
      RemoveKeeps(RemoveEach(t, fds[..n]), fds[n]);
      assert fds == fds[..n] + [fds[n]];
    }
  }

  /** An exec closes the marked descriptors and keeps all others. */
  lemma CloseOnExecIsExact(t: Table)
    requires Valid(t)
    ensures Valid(CloseOnExec(t)) && |CloseOnExec(t).entries| == |t.entries|
    ensures forall i :: 0 <= i < |t.entries| ==>
                          CloseOnExec(t).entries[i] == if OnExec(t.entries[i]) then None else t.entries[i]
  {
    RemoveEachKeeps(t, Closing(t.entries, |t.entries|));
  }

  // ----- Runs -----

  datatype Step =
    | DoInsert(entry: Entry)
    | DoInsertAt(fd: nat, entry: Entry)
    | DoInsertAbove(min: nat, file: nat)
    | DoRemove(fd: nat)
    | DoCloseOnExec

  function Apply(t: Table, step: Step): Table {
    match step
    case DoInsert(entry) => Insert(t, entry)
    case DoInsertAt(fd, entry) => InsertAt(t, fd, entry)
    case DoInsertAbove(min, file) => InsertAbove(t, min, file)
    case DoRemove(fd) => Remove(t, fd)
    case DoCloseOnExec => CloseOnExec(t)
  }

  function After(steps: seq<Step>): Table {
    if steps == [] then Empty() else Apply(After(steps[..|steps| - 1]), steps[|steps| - 1])
  }

  lemma {:induction false} EveryRunKeepsHint(steps: seq<Step>)
    ensures Valid(After(steps))
  {
    if steps != [] {
      var t, step := After(steps[..|steps| - 1]), steps[|steps| - 1];
      EveryRunKeepsHint(steps[..|steps| - 1]);
      match step
      case DoInsert(entry) => InsertKeeps(t, entry);
      case DoInsertAt(fd, entry) =>
      case DoInsertAbove(min, file) => AboveKeepsToMinimum(t, min, file);
      case DoRemove(fd) => RemoveKeeps(t, fd);
      case DoCloseOnExec => CloseOnExecIsExact(t);
    }
  }

  /** After any calls whatever, the next insertion gets the lowest free descriptor. */
  lemma EveryInsertIsLowest(steps: seq<Step>)
    ensures var t := After(steps);
            InsertFd(t) == if FindFrom(t.entries, 0) < |t.entries| || |t.entries| < MAX_FDS
                           then Some(FindFrom(t.entries, 0)) else None
  {
    EveryRunKeepsHint(steps);
    HintedIsScan(After(steps), 0);
  }

  // ----- In place -----

  class FileDescriptorTable {
    var entries: seq<Option<Entry>>
    var nextFdHint: nat

    function Current(): Table
      reads this
    {
      Table(entries, nextFdHint)
    }

    constructor ()
      ensures Current() == Empty() && Valid(Current())
    {
      entries, nextFdHint := [], 0;
    }

    method FindFreeFd() returns (fd: Option<nat>)
      modifies this`nextFdHint
      ensures fd == InsertFd(old(Current()))
      ensures nextFdHint == if fd.Some? then fd.value + 1 else old(nextFdHint)
    {
      var i := nextFdHint;
      while i < |entries|
        invariant nextFdHint <= i && (nextFdHint <= |entries| ==> i <= |entries|)
        invariant i <= |entries| ==> FindFrom(entries, i) == Search(Current(), nextFdHint)
      {
        if entries[i].None? {
          nextFdHint := i + 1;
          return Some(i);
        }
        i := i + 1;
      }
      var next := |entries|;
      if next >= MAX_FDS { return None; }
      nextFdHint := next + 1;
      return Some(next);
    }

    method InsertAtFd(fd: nat, entry: Entry) returns (replaced: Option<Entry>)
      modifies this`entries
      ensures old(Valid(Current())) ==> Valid(Current())
      ensures entries == Put(old(entries), fd, entry)
      ensures replaced == if fd < |old(entries)| then old(entries)[fd] else None
    {
      while |entries| < fd + 1
        invariant |old(entries)| <= |entries|
        invariant |entries| <= fd + 1 || entries == old(entries)
        invariant entries == old(entries) + seq(|entries| - |old(entries)|, i => None)
        decreases fd + 1 - |entries|
      {
        entries := entries + [None];
      }
      replaced := entries[fd];
      entries := entries[fd := Some(entry)];
    }

    method InsertWithFlags(file: nat, cloexec: bool) returns (fd: Option<nat>)
      requires Valid(Current())
      modifies this
      ensures Current() == Insert(old(Current()), Entry(file, cloexec)) && fd == InsertFd(old(Current()))
      ensures Valid(Current()) && (fd.Some? ==> fd.value == FindFrom(old(entries), 0))
    {
      InsertKeeps(Current(), Entry(file, cloexec));
      HintedIsScan(Current(), 0);
      fd := FindFreeFd();
      if fd.Some? {
        var replaced := InsertAtFd(fd.value, Entry(file, cloexec));
      }
    }

    method InsertAboveFd(min: nat, file: nat) returns (fd: nat)
      requires Valid(Current())
      modifies this`entries
      ensures Valid(Current())
      ensures Current() == InsertAbove(old(Current()), min, file) && fd == Search(old(Current()), min)
    {
      var i := min;
      while i < |entries|
        invariant min <= i && (min <= |entries| ==> i <= |entries|)
        invariant i <= |entries| ==> FindFrom(entries, i) == Search(Current(), min)
      {
        if entries[i].None? {
          var replaced := InsertAtFd(i, Entry(file, false));
          return i;
        }
        i := i + 1;
      }
      fd := |entries|;
      entries := entries + [Some(Entry(file, false))];
    }

    method RemoveFd(fd: nat) returns (file: Option<nat>)
      requires Valid(Current())
      modifies this
      ensures Valid(Current())
      ensures Current() == Remove(old(Current()), fd)
      ensures file == if fd < |old(entries)| && old(entries)[fd].Some? then Some(old(entries)[fd].value.file) else None
    {
      if fd < |entries| && entries[fd].Some? {
        file := Some(entries[fd].value.file);
        entries := entries[fd := None];
        nextFdHint := if fd < nextFdHint then fd else nextFdHint;
      } else {
        file := None;
      }
    }

    method CloseCloexecEntries()
      requires Valid(Current())
      modifies this
      ensures Current() == CloseOnExec(old(Current())) && Valid(Current())
    {
      var closing: seq<nat> := [];
      for i := 0 to |entries|
        invariant closing == Closing(entries, i)
      {
        if entries[i].Some? && entries[i].value.cloexec {
          closing := closing + [i];
        }
      }
      for k := 0 to |closing|
        invariant Current() == RemoveEach(old(Current()), closing[..k]) && Valid(Current())
      {
        assert closing[..k + 1][..k] == closing[..k];
        var file := RemoveFd(closing[k]);
      }
      assert closing[..|closing|] == closing;
    }
  }
}
