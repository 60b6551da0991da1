/**
 The initial user stack. `SetupUserStack` is the printer; the parser is what a program's start-up
 code does from the stack pointer it is given, through the pages that were mapped for it.
 */
module UserStack {
  import opened PageFrames
  import opened LittleEndian

  const STACK_END: nat := 0x0000_8000_0000_0000
  const STACK_SZ: nat := 0x2000 * 0x400

  const AT_NULL: Word := 0
  const AT_PAGESZ: Word := 6
  const AT_RANDOM: Word := 25

  type Word = w: int | 0 <= w < 0x1_0000_0000_0000_0000

  type CString = seq<Byte>

  datatype Error = TooLarge | NoMemory

  datatype Setup = Ready(sp: nat, pages: map<nat, seq<Byte>>) | Refused(error: Error)

  // ----- Layout -----

  /** NUL-terminated strings, one after the other. */
  function Flatten(strings: seq<CString>): seq<Byte> {
    if strings == [] then [] else strings[0] + [0] + Flatten(strings[1..])
  }

  function WordBytes(words: seq<Word>): (bytes: seq<Byte>)
    ensures |bytes| == 8 * |words|
  {
    if words == [] then [] else Encode(words[0], 8) + WordBytes(words[1..])
  }

  /** The address of string `k` when all of them end at the top of the stack. */
  function StringAddress(strings: seq<CString>, k: nat): int
    requires k <= |strings|
  {
    STACK_END - |Flatten(strings[k..])|
  }

  function FullAuxv(auxv: seq<Word>): seq<Word> {
    auxv + [AT_PAGESZ, PAGE_SIZE, AT_RANDOM, STACK_END - 0x10, AT_NULL, 0]
  }

  /** How many words lie at the stack pointer: argc, both pointer vectors and the auxiliary vector. */
  function InfoWords(argv: seq<CString>, envp: seq<CString>, auxv: seq<Word>): nat {
    1 + |argv| + 1 + |envp| + 1 + |FullAuxv(auxv)|
  }

  function StackPointer(argv: seq<CString>, envp: seq<CString>, auxv: seq<Word>): (sp: int)
    ensures sp % 16 == 0
  {
    var unaligned := STACK_END - |Flatten(envp + argv)| - 8 * InfoWords(argv, envp, auxv);
    unaligned - unaligned % 16
  }

  predicate Fits(argv: seq<CString>, envp: seq<CString>, auxv: seq<Word>) {
    STACK_END - StackPointer(argv, envp, auxv) <= STACK_SZ
  }

  lemma {:induction false} FlattenSplit(strings: seq<CString>, k: nat)
    requires k <= |strings|
    ensures Flatten(strings) == Flatten(strings[..k]) + Flatten(strings[k..])
  {
    if k == 0 {
      assert strings[..0] == [] && strings[0..] == strings;
    } else {
      FlattenSplit(strings[1..], k - 1);
      assert strings[1..][..k - 1] == strings[..k][1..];
      assert strings[1..][k - 1..] == strings[k..];
    }
  }

  lemma FlattenShrinks(strings: seq<CString>, k: nat)
    requires k <= |strings|
    ensures |Flatten(strings[k..])| <= |Flatten(strings)|
  {
    FlattenSplit(strings, k);
  }

  lemma {:induction false} FlattenCounts(strings: seq<CString>)
    ensures |strings| <= |Flatten(strings)|
  {
    if strings != [] { FlattenCounts(strings[1..]); }
  }

  function Pointer(strings: seq<CString>, k: nat): (w: Word)
    requires |Flatten(strings)| < STACK_END && k < |strings|
    ensures w != 0
  {
    FlattenShrinks(strings, k);
    StringAddress(strings, k)
  }

  /** The addresses of the strings, as words of the information block. */
  function Pointers(strings: seq<CString>): (words: seq<Word>)
    requires |Flatten(strings)| < STACK_END
    ensures |words| == |strings| && forall k :: 0 <= k < |words| ==> words[k] != 0
  {
    seq(|strings|, k requires 0 <= k < |strings| => Pointer(strings, k))
  }

  function InfoBlock(argv: seq<CString>, envp: seq<CString>, auxv: seq<Word>): (words: seq<Word>)
    requires Fits(argv, envp, auxv)
    ensures |words| == InfoWords(argv, envp, auxv)
  {
    FlattenCounts(envp + argv);
    var pointers := Pointers(envp + argv);
    [|argv|] + ((pointers[|envp|..] + [0]) + ((pointers[..|envp|] + [0]) + FullAuxv(auxv)))
  }

  /** The bytes from the stack pointer to the top of the stack. */
  function Image(argv: seq<CString>, envp: seq<CString>, auxv: seq<Word>): (image: seq<Byte>)
    requires Fits(argv, envp, auxv)
    ensures |image| == STACK_END - StackPointer(argv, envp, auxv)
  {
    var words, strings := WordBytes(InfoBlock(argv, envp, auxv)), Flatten(envp + argv);
    var padding := STACK_END - StackPointer(argv, envp, auxv) - |words| - |strings|;
    words + seq(padding, i => 0) + strings
  }

  /** String `k` lies in the string area and ends where the next one starts. */
  predicate Placed(strings: seq<CString>, k: nat, start: int)
    requires k < |strings|
  {
    && start <= StringAddress(strings, k)
    && StringAddress(strings, k) + |strings[k]| + 1 == StringAddress(strings, k + 1) <= STACK_END
  }

  ghost predicate AllPlaced(strings: seq<CString>, start: int) {
    forall k :: 0 <= k < |strings| ==> Placed(strings, k, start)
  }

  lemma StringsArePlaced(strings: seq<CString>, start: int)
    requires start == STACK_END - |Flatten(strings)|
    ensures AllPlaced(strings, start)
  {
    forall k | 0 <= k < |strings| ensures Placed(strings, k, start) {
      FlattenShrinks(strings, k);
      assert strings[k..][1..] == strings[k + 1..];
    }
  }

  /** Information block, padding and strings follow each other without overlap up to the top. */
  lemma LayoutIsTight(argv: seq<CString>, envp: seq<CString>, auxv: seq<Word>)
    requires Fits(argv, envp, auxv)
    ensures var sp, strings := StackPointer(argv, envp, auxv), envp + argv;
            var infoEnd, stringsStart := sp + 8 * InfoWords(argv, envp, auxv), STACK_END - |Flatten(strings)|;
            && sp % 16 == 0
            && infoEnd <= stringsStart < infoEnd + 16
            && AllPlaced(strings, stringsStart)
  {
    StringsArePlaced(envp + argv, STACK_END - |Flatten(envp + argv)|);
  }

  // ----- Reading it back -----

  /** What a program sees at each address. */
  type Memory = int -> Option<Byte>

  /** One byte of memory made of pages. */
  function Peek(pages: map<nat, seq<Byte>>, va: int): Option<Byte> {
    var base := va - va % PAGE_SIZE;
    if base >= 0 && base in pages && va - base < |pages[base]| then Some(pages[base][va - base]) else None
  }

  function Through(pages: map<nat, seq<Byte>>): Memory {
    va => Peek(pages, va)
  }

  /** The bytes are in memory at `va`. */
  ghost predicate Holds(mem: Memory, va: int, bytes: seq<Byte>)
    decreases |bytes|
  {
    bytes == [] || (mem(va) == Some(bytes[0]) && Holds(mem, va + 1, bytes[1..]))
  }

  lemma {:induction false} HoldsIntro(mem: Memory, va: int, bytes: seq<Byte>)
    requires forall i :: 0 <= i < |bytes| ==> mem(va + i) == Some(bytes[i])
    ensures Holds(mem, va, bytes)
    decreases |bytes|
  {
    if bytes != [] {
      assert mem(va + 0) == Some(bytes[0]);
      forall i | 0 <= i < |bytes[1..]| ensures mem(va + 1 + i) == Some(bytes[1..][i]) {
        assert mem(va + (i + 1)) == Some(bytes[i + 1]);
      }
      HoldsIntro(mem, va + 1, bytes[1..]);
    }
  }

  function At(mem: Memory, va: int, i: int): Option<Byte> {
    mem(va + i)
  }

  predicate Mapped(mem: Memory, va: int, n: nat) {
    forall i :: 0 <= i < n ==> At(mem, va, i).Some?
  }

  function BytesAt(mem: Memory, va: int, n: nat): seq<Byte>
    requires Mapped(mem, va, n)
  {
    seq(n, i requires 0 <= i < n => At(mem, va, i).value)
  }

  function ReadWord(mem: Memory, va: int): Option<nat> {
    if Mapped(mem, va, 8) then Some(Decode(BytesAt(mem, va, 8))) else None
  }

  /** A NUL-terminated string. */
  function ReadString(mem: Memory, va: int): Option<CString>
    decreases STACK_END - va
  {
    if va >= STACK_END then None
    else
      var first := mem(va);
      if first.None? then None
      else if first.value == 0 then Some([])
      else
        var rest := ReadString(mem, va + 1);
        if rest.None? then None else Some([first.value] + rest.value)
  }

  /** A vector of words up to its zero, which is not part of it. */
  function ReadVector(mem: Memory, va: int): Option<seq<nat>>
    decreases STACK_END - va
  {
    if va >= STACK_END then None
    else
      var first := ReadWord(mem, va);
      if first.None? then None
      else if first.value == 0 then Some([])
      else
        var rest := ReadVector(mem, va + 8);
        if rest.None? then None else Some([first.value] + rest.value)
  }

  /** Key and value pairs up to the pair whose key is zero. */
  function ReadPairs(mem: Memory, va: int): Option<seq<(nat, nat)>>
    decreases STACK_END - va
  {
    if va >= STACK_END then None
    else
      var key, value := ReadWord(mem, va), ReadWord(mem, va + 8);
      if key.None? || value.None? then None
      else if key.value == 0 then Some([])
      else
        var rest := ReadPairs(mem, va + 16);
        if rest.None? then None else Some([(key.value, value.value)] + rest.value)
  }

  function ReadStrings(mem: Memory, addresses: seq<nat>): Option<seq<CString>> {
    if addresses == [] then Some([])
    else
      var first, rest := ReadString(mem, addresses[0]), ReadStrings(mem, addresses[1..]);
      if first.Some? && rest.Some? then Some([first.value] + rest.value) else None
  }

  datatype StartUp = StartUp(argc: nat, argv: seq<CString>, envp: seq<CString>, auxv: seq<(nat, nat)>)

  /** What a program's start-up code learns from its stack pointer. */
  function ReadStartUp(mem: Memory, sp: int): Option<StartUp> {
    var argc, argvPtrs := ReadWord(mem, sp), ReadVector(mem, sp + 8);
    if argc.None? || argvPtrs.None? then None
    else
      var envAt := sp + 8 + 8 * (|argvPtrs.value| + 1);
      var envPtrs := ReadVector(mem, envAt);
      if envPtrs.None? then None
      else
        var pairs := ReadPairs(mem, envAt + 8 * (|envPtrs.value| + 1));
        var argv, envp := ReadStrings(mem, argvPtrs.value), ReadStrings(mem, envPtrs.value);
        if pairs.None? || argv.None? || envp.None? then None
        else Some(StartUp(argc.value, argv.value, envp.value, pairs.value))
  }

  lemma {:induction false} HoldsHead(mem: Memory, va: int, a: seq<Byte>, b: seq<Byte>)
    requires Holds(mem, va, a + b)
    ensures Holds(mem, va, a)
    decreases |a|
  {
    if a != [] {
      assert (a + b)[1..] == a[1..] + b;
      HoldsHead(mem, va + 1, a[1..], b);
    }
  }

  lemma {:induction false} HoldsTail(mem: Memory, va: int, a: seq<Byte>, b: seq<Byte>)
    requires Holds(mem, va, a + b)
    ensures Holds(mem, va + |a|, b)
    decreases |a|
  {
    if a == [] {
      assert a + b == b;
    } else {
      assert (a + b)[1..] == a[1..] + b;
      HoldsTail(mem, va + 1, a[1..], b);
    }
  }

  lemma {:induction false} HoldsAt(mem: Memory, va: int, bytes: seq<Byte>, i: nat)
    requires Holds(mem, va, bytes) && i < |bytes|
    ensures At(mem, va, i) == Some(bytes[i])
    decreases |bytes|
  {
    if i > 0 {
      HoldsAt(mem, va + 1, bytes[1..], i - 1);
      assert va + 1 + (i - 1) == va + i;
    }
  }

  lemma BytesBack(mem: Memory, va: int, bytes: seq<Byte>)
    requires Holds(mem, va, bytes)
    ensures Mapped(mem, va, |bytes|) && BytesAt(mem, va, |bytes|) == bytes
  {
    forall i | 0 <= i < |bytes| ensures At(mem, va, i) == Some(bytes[i]) { HoldsAt(mem, va, bytes, i); }
  }

  lemma ReadWordBack(mem: Memory, va: int, w: Word)
    requires Holds(mem, va, Encode(w, 8))
    ensures ReadWord(mem, va) == Some(w)
  {
    BytesBack(mem, va, Encode(w, 8));
    Widths();
    RoundTrip(w, 8);
  }

  lemma {:induction false} ReadStringBack(mem: Memory, va: int, s: CString)
    requires Holds(mem, va, s + [0]) && 0 !in s && va + |s| < STACK_END
    ensures ReadString(mem, va) == Some(s)
    decreases |s|
  {
    if s != [] {
      assert (s + [0])[1..] == s[1..] + [0];
      ReadStringBack(mem, va + 1, s[1..]);
      assert s == [s[0]] + s[1..];
    }
  }

  lemma {:induction false} WordBytesJoin(a: seq<Word>, b: seq<Word>)
    ensures WordBytes(a + b) == WordBytes(a) + WordBytes(b)
  {
    if a == [] {
      assert a + b == b;
    } else {
      assert (a + b)[1..] == a[1..] + b;
      WordBytesJoin(a[1..], b);
    }
  }

  lemma HoldsWordsHead(mem: Memory, va: int, a: seq<Word>, b: seq<Word>)
    requires Holds(mem, va, WordBytes(a + b))
    ensures Holds(mem, va, WordBytes(a))
  {
    WordBytesJoin(a, b);
    HoldsHead(mem, va, WordBytes(a), WordBytes(b));
  }

  lemma HoldsWordsTail(mem: Memory, va: int, a: seq<Word>, b: seq<Word>)
    requires Holds(mem, va, WordBytes(a + b))
    ensures Holds(mem, va + 8 * |a|, WordBytes(b))
  {
    WordBytesJoin(a, b);
    HoldsTail(mem, va, WordBytes(a), WordBytes(b));
  }

  lemma ReadFirstWord(mem: Memory, va: int, words: seq<Word>)
    requires words != [] && Holds(mem, va, WordBytes(words))
    ensures ReadWord(mem, va) == Some(words[0])
  {
    HoldsHead(mem, va, Encode(words[0], 8), WordBytes(words[1..]));
    ReadWordBack(mem, va, words[0]);
  }

  lemma SkipWord(mem: Memory, va: int, words: seq<Word>)
    requires words != [] && Holds(mem, va, WordBytes(words))
    ensures Holds(mem, va + 8, WordBytes(words[1..]))
  {
    HoldsTail(mem, va, Encode(words[0], 8), WordBytes(words[1..]));
  }

  lemma {:induction false} ReadVectorBack(mem: Memory, va: int, words: seq<Word>)
    requires Holds(mem, va, WordBytes(words + [0])) && va + 8 * |words| < STACK_END
    requires forall i :: 0 <= i < |words| ==> words[i] != 0
    ensures ReadVector(mem, va) == Some(words)
    decreases |words|
  {
    ReadFirstWord(mem, va, words + [0]);
    if words != [] {
      SkipWord(mem, va, words + [0]);
      assert (words + [0])[1..] == words[1..] + [0];
      ReadVectorBack(mem, va + 8, words[1..]);
      assert words == [words[0]] + words[1..];
    }
  }

  /** A flat vector of words, two by two. */
  function Pairs(words: seq<Word>): seq<(nat, nat)> {
    if |words| < 2 then [] else [(words[0], words[1])] + Pairs(words[2..])
  }

  /** A vector of pairs none of which has the key that ends it. */
  predicate HasKeys(words: seq<Word>) {
    words == [] || (|words| >= 2 && words[0] != AT_NULL && HasKeys(words[2..]))
  }

  lemma {:induction false} HasKeysJoin(a: seq<Word>, b: seq<Word>)
    requires HasKeys(a) && HasKeys(b)
    ensures HasKeys(a + b)
  {
    if a == [] {
      assert a + b == b;
    } else {
      assert (a + b)[2..] == a[2..] + b;
      HasKeysJoin(a[2..], b);
    }
  }

  lemma {:induction false} ReadPairsBack(mem: Memory, va: int, words: seq<Word>)
    requires Holds(mem, va, WordBytes(words + [AT_NULL, 0])) && va + 8 * |words| < STACK_END
    requires HasKeys(words)
    ensures ReadPairs(mem, va) == Some(Pairs(words))
    decreases |words|
  {
    var all := words + [AT_NULL, 0];
    ReadFirstWord(mem, va, all);
    SkipWord(mem, va, all);
    ReadFirstWord(mem, va + 8, all[1..]);
    if words != [] {
      SkipWord(mem, va + 8, all[1..]);
      assert all[1..][1..] == words[2..] + [AT_NULL, 0];
      ReadPairsBack(mem, va + 16, words[2..]);
    }
  }

  /** Every string is found at its address. */
  lemma ReadStringAt(mem: Memory, strings: seq<CString>, k: nat)
    requires Holds(mem, STACK_END - |Flatten(strings)|, Flatten(strings)) && k < |strings|
    requires 0 !in strings[k]
    ensures ReadString(mem, StringAddress(strings, k)) == Some(strings[k])
  {
    FlattenSplit(strings, k);
    var before, from := Flatten(strings[..k]), strings[k..];
    HoldsTail(mem, STACK_END - |Flatten(strings)|, before, Flatten(from));
    HoldsHead(mem, StringAddress(strings, k), strings[k] + [0], Flatten(from[1..]));
    ReadStringBack(mem, StringAddress(strings, k), strings[k]);
  }

  lemma {:induction false} ReadStringsBack(mem: Memory, strings: seq<CString>, lo: nat, hi: nat)
    requires |Flatten(strings)| < STACK_END && lo <= hi <= |strings|
    requires Holds(mem, STACK_END - |Flatten(strings)|, Flatten(strings))
    requires forall k :: 0 <= k < |strings| ==> 0 !in strings[k]
    ensures ReadStrings(mem, Pointers(strings)[lo..hi]) == Some(strings[lo..hi])
    decreases hi - lo
  {
    if lo < hi {
      ReadStringAt(mem, strings, lo);
      ReadStringsBack(mem, strings, lo + 1, hi);
      assert Pointers(strings)[lo..hi][1..] == Pointers(strings)[lo + 1..hi];
      assert strings[lo..hi] == [strings[lo]] + strings[lo + 1..hi];
    }
  }

  /** The information block at `va` after its count: two vectors and the pairs. */
  lemma ReadVectors(mem: Memory, va: int, args: seq<Word>, envs: seq<Word>, aux: seq<Word>)
    requires Holds(mem, va, WordBytes((args + [0]) + ((envs + [0]) + (aux + [AT_NULL, 0]))))
    requires va + 8 * (4 + |args| + |envs| + |aux|) <= STACK_END && HasKeys(aux)
    requires (forall i :: 0 <= i < |args| ==> args[i] != 0) && (forall i :: 0 <= i < |envs| ==> envs[i] != 0)
    ensures ReadVector(mem, va) == Some(args)
    ensures ReadVector(mem, va + 8 * (|args| + 1)) == Some(envs)
    ensures ReadPairs(mem, va + 8 * (|args| + 1) + 8 * (|envs| + 1)) == Some(Pairs(aux))
  {
    var pairs: seq<Word> := aux + [AT_NULL, 0];
    var rest: seq<Word> := (envs + [0]) + pairs;
    HoldsWordsHead(mem, va, args + [0], rest);
    ReadVectorBack(mem, va, args);
    HoldsWordsTail(mem, va, args + [0], rest);
    HoldsWordsHead(mem, va + 8 * (|args| + 1), envs + [0], pairs);
    ReadVectorBack(mem, va + 8 * (|args| + 1), envs);
    HoldsWordsTail(mem, va + 8 * (|args| + 1), envs + [0], pairs);
    ReadPairsBack(mem, va + 8 * (|args| + 1) + 8 * (|envs| + 1), aux);
  }

  /** What start-up code finds in the auxiliary vector: the caller's pairs and the two added ones. */
  function AuxPairs(auxv: seq<Word>): seq<Word> {
    auxv + [AT_PAGESZ, PAGE_SIZE, AT_RANDOM, STACK_END - 0x10]
  }

  lemma AuxKeys(auxv: seq<Word>)
    requires HasKeys(auxv)
    ensures HasKeys(AuxPairs(auxv)) && FullAuxv(auxv) == AuxPairs(auxv) + [AT_NULL, 0]
    ensures AuxPairs(auxv) == auxv + [6, 0x1000, 25, 0x7fff_ffff_fff0]
  {
    HasKeysJoin(auxv, [AT_PAGESZ, PAGE_SIZE, AT_RANDOM, STACK_END - 0x10]);
  }

  function Padding(argv: seq<CString>, envp: seq<CString>, auxv: seq<Word>): nat {
    STACK_END - StackPointer(argv, envp, auxv) - 8 * InfoWords(argv, envp, auxv) - |Flatten(envp + argv)|
  }

  lemma ThreeParts(
    mem: Memory, sp: int, whole: seq<Byte>, words: seq<Byte>, padding: seq<Byte>, flat: seq<Byte>, at: int)
    requires Holds(mem, sp, whole) && whole == words + padding + flat && at == sp + |words| + |padding|
    ensures Holds(mem, sp, words) && Holds(mem, at, flat)
  {
    HoldsHead(mem, sp, words + padding, flat);
    HoldsHead(mem, sp, words, padding);
    HoldsTail(mem, sp, words + padding, flat);
  }

  /** What the reads of the information block give. */
  ghost predicate InfoReads(mem: Memory, sp: int, args: seq<Word>, envs: seq<Word>, pairs: seq<(nat, nat)>) {
    && ReadWord(mem, sp) == Some(|args|)
    && ReadVector(mem, sp + 8) == Some(args)
    && ReadVector(mem, sp + 8 + 8 * (|args| + 1)) == Some(envs)
    && ReadPairs(mem, sp + 8 + 8 * (|args| + 1) + 8 * (|envs| + 1)) == Some(pairs)
  }

  lemma InfoBlockReads(mem: Memory, sp: int, argc: Word, args: seq<Word>, envs: seq<Word>, aux: seq<Word>)
    requires Holds(mem, sp, WordBytes([argc] + ((args + [0]) + ((envs + [0]) + (aux + [AT_NULL, 0])))))
    requires argc == |args|
    requires sp + 8 * (5 + |args| + |envs| + |aux|) <= STACK_END && HasKeys(aux)
    requires (forall i :: 0 <= i < |args| ==> args[i] != 0) && (forall i :: 0 <= i < |envs| ==> envs[i] != 0)
    ensures InfoReads(mem, sp, args, envs, Pairs(aux))
  {
    var rest: seq<Word> := (args + [0]) + ((envs + [0]) + (aux + [AT_NULL, 0]));
    ReadFirstWord(mem, sp, [argc] + rest);
    HoldsWordsTail(mem, sp, [argc], rest);
    ReadVectors(mem, sp + 8, args, envs, aux);
  }

  lemma InfoReadBack(mem: Memory, argv: seq<CString>, envp: seq<CString>, auxv: seq<Word>, pointers: seq<Word>)
    requires Fits(argv, envp, auxv) && HasKeys(auxv)
    requires |Flatten(envp + argv)| < STACK_END && pointers == Pointers(envp + argv)
    requires Holds(mem, StackPointer(argv, envp, auxv), WordBytes(InfoBlock(argv, envp, auxv)))
    ensures InfoReads(mem, StackPointer(argv, envp, auxv), pointers[|envp|..], pointers[..|envp|],
                      Pairs(AuxPairs(auxv)))
  {
    var sp, args, envs, aux := StackPointer(argv, envp, auxv), pointers[|envp|..], pointers[..|envp|], AuxPairs(auxv);
    FlattenCounts(envp + argv);
    AuxKeys(auxv);
    var argc: Word := |argv|;
    assert InfoBlock(argv, envp, auxv) == [argc] + ((args + [0]) + ((envs + [0]) + (aux + [AT_NULL, 0])));
    InfoBlockReads(mem, sp, argc, args, envs, aux);
  }

  lemma Assemble(mem: Memory, sp: int, args: seq<Word>, envs: seq<Word>, pairs: seq<(nat, nat)>,
                 argv: seq<CString>, envp: seq<CString>)
    requires InfoReads(mem, sp, args, envs, pairs)
    requires ReadStrings(mem, args) == Some(argv) && ReadStrings(mem, envs) == Some(envp)
    ensures ReadStartUp(mem, sp) == Some(StartUp(|args|, argv, envp, pairs))
  {
  }

  /** Start-up code recovers exactly what the stack was set up with. */
  lemma StartUpRoundTrip(mem: Memory, argv: seq<CString>, envp: seq<CString>, auxv: seq<Word>)
    requires Fits(argv, envp, auxv) && HasKeys(auxv)
    requires forall k :: 0 <= k < |envp + argv| ==> 0 !in (envp + argv)[k]
    requires Holds(mem, StackPointer(argv, envp, auxv), Image(argv, envp, auxv))
    ensures ReadStartUp(mem, StackPointer(argv, envp, auxv))
            == Some(StartUp(|argv|, argv, envp, Pairs(AuxPairs(auxv))))
  {
    var strings := envp + argv;
    var pointers := Pointers(strings);
    ThreeParts(mem, StackPointer(argv, envp, auxv), Image(argv, envp, auxv), WordBytes(InfoBlock(argv, envp, auxv)),
               seq(Padding(argv, envp, auxv), i => 0), Flatten(strings), STACK_END - |Flatten(strings)|);
    InfoReadBack(mem, argv, envp, auxv, pointers);
    ReadStringsBack(mem, strings, |envp|, |strings|);
    ReadStringsBack(mem, strings, 0, |envp|);
    assert pointers[|envp|..|strings|] == pointers[|envp|..] && pointers[0..|envp|] == pointers[..|envp|];
    assert strings[|envp|..|strings|] == argv && strings[0..|envp|] == envp;
    Assemble(mem, StackPointer(argv, envp, auxv), pointers[|envp|..], pointers[..|envp|],
             Pairs(AuxPairs(auxv)), argv, envp);
  }

  predicate Overlap(a: int, aLength: nat, b: int, bLength: nat) {
    a < b + bLength && b < a + aLength && aLength > 0 && bLength > 0
  }

  /** The sixteen bytes that AT_RANDOM names are string bytes whenever there is a string. */
  lemma RandomBytesAliasStrings(strings: seq<CString>)
    ensures Overlap(STACK_END - 0x10, 16, STACK_END - |Flatten(strings)|, |Flatten(strings)|) <==> strings != []
  {
    FlattenCounts(strings);
  }
}
