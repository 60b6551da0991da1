/** `setup_user_stack` as it is written, proved against the layout and its reader. */
module StackSetup {
  import opened PageFrames
  import opened LittleEndian
  import opened UserStack

  /** The first pass of the layout: each string's length, replaced by its address from the top down. */
  method PlaceStrings(strings: seq<CString>) returns (addrs: array<int>, total: nat)
    ensures fresh(addrs) && addrs.Length == |strings| && total == |Flatten(strings)|
    ensures forall k :: 0 <= k < |strings| ==> addrs[k] == StringAddress(strings, k)
  {
    addrs := new int[|strings|];
    total := 0;
    for k := 0 to |strings|
      invariant total == |Flatten(strings[..k])|
      invariant forall j :: 0 <= j < k ==> addrs[j] == |strings[j]| + 1
    {
      var len := |strings[k]| + 1;
      total := total + len;
      addrs[k] := len;
      FlattenSplit(strings[..k + 1], k);
      assert strings[..k + 1][..k] == strings[..k] && strings[..k + 1][k..] == [strings[k]];
    }
    assert strings[..|strings|] == strings;
    var currentVa: int := STACK_END;
    for k := |strings| downto 0
      invariant currentVa == StringAddress(strings, k)
      invariant forall j :: 0 <= j < k ==> addrs[j] == |strings[j]| + 1
      invariant forall j :: k <= j < |strings| ==> addrs[j] == StringAddress(strings, j)
    {
      currentVa := currentVa - addrs[k];
      assert strings[k..][1..] == strings[k + 1..];
      addrs[k] := currentVa;
    }
  }

  /** Writes the strings into the zeroed image from its end downwards. */
  method WriteStrings(image: array<Byte>, strings: seq<CString>)
    requires |Flatten(strings)| <= image.Length
    requires forall i :: 0 <= i < image.Length ==> image[i] == 0
    modifies image
    ensures image[image.Length - |Flatten(strings)|..] == Flatten(strings)
    ensures forall i :: 0 <= i < image.Length - |Flatten(strings)| ==> image[i] == 0
  {
    var cursor: int := image.Length;
    assert strings[|strings|..] == [];
    for k := |strings| downto 0
      invariant cursor == image.Length - |Flatten(strings[k..])|
      invariant 0 <= cursor <= image.Length
      invariant image[cursor..] == Flatten(strings[k..])
      invariant forall i :: 0 <= i < cursor ==> image[i] == 0
    {
      var s := strings[k];
      ghost var rest := image[cursor..];
      assert strings[k..][1..] == strings[k + 1..];
      FlattenShrinks(strings, k);
      var at := cursor - (|s| + 1);
      forall i | 0 <= i < |s| {
        image[at + i] := s[i];
      }
      assert image[at..at + |s|] == s && image[at + |s|] == 0 && image[cursor..] == rest;
      assert image[at..] == s + [0] + rest;
      cursor := at;
    }
    assert strings[0..] == strings;
  }

  /** Where page `i`, counted from the top of the stack, is mapped. */
  function PageVa(i: nat): int {
    STACK_END - (i + 1) * PAGE_SIZE
  }

  /** The slice of the image that page `i` holds, at the end of the page. */
  function PageOf(image: seq<Byte>, i: nat): (page: seq<Byte>)
    requires i * PAGE_SIZE <= |image|
    ensures |page| == PAGE_SIZE
  {
    var end := |image| - i * PAGE_SIZE;
    var start := if end > PAGE_SIZE then end - PAGE_SIZE else 0;
    seq(PAGE_SIZE - (end - start), _ => 0) + image[start..end]
  }

  lemma PeekPage(pages: map<nat, seq<Byte>>, image: seq<Byte>, i: nat, va: int)
    requires |image| <= STACK_SZ && i * PAGE_SIZE < |image| && PageVa(i) >= 0
    requires PageVa(i) <= va < PageVa(i) + PAGE_SIZE && STACK_END - |image| <= va
    requires PageVa(i) in pages && pages[PageVa(i)] == PageOf(image, i)
    ensures Peek(pages, va) == Some(image[va - (STACK_END - |image|)])
  {
    assert va - va % PAGE_SIZE == PageVa(i);
  }

  /** Cuts the image into pages from the top down; the last one may be partly filled. */
  method MapImage(image: seq<Byte>, available: nat) returns (pages: map<nat, seq<Byte>>, ok: bool)
    requires |image| <= STACK_SZ
    ensures ok <==> |image| <= available * PAGE_SIZE
    ensures ok ==> forall va :: STACK_END - |image| <= va < STACK_END ==>
                     Peek(pages, va) == Some(image[va - (STACK_END - |image|)])
    ensures ok ==> forall base :: base in pages ==>
                     base % PAGE_SIZE == 0 && STACK_END - |image| - PAGE_SIZE < base < STACK_END
  {
    pages := map[];
    var numPages := (|image| + PAGE_SIZE - 1) / PAGE_SIZE;
    for i := 0 to numPages
      invariant i <= available
      invariant forall j :: 0 <= j < i ==> PageVa(j) in pages && pages[PageVa(j)] == PageOf(image, j)
      invariant forall base :: base in pages ==> exists j :: 0 <= j < i && base == PageVa(j)
    {
      if i >= available {
        return pages, false;
      }
      var imageEnd := |image| - i * PAGE_SIZE;
      var imageStart := if imageEnd > PAGE_SIZE then imageEnd - PAGE_SIZE else 0;
      var slice := image[imageStart..imageEnd];
      pages := pages[PageVa(i) := seq(PAGE_SIZE - |slice|, _ => 0) + slice];
    }
    forall va | STACK_END - |image| <= va < STACK_END
      ensures Peek(pages, va) == Some(image[va - (STACK_END - |image|)])
    {
      var i := (STACK_END - 1 - va) / PAGE_SIZE;
      PeekPage(pages, image, i, va);
    }
    ok := true;
  }

  /** The information block, its words still plain integers. */
  method CollectInfo(argv: seq<CString>, envp: seq<CString>, auxv: seq<Word>, addrs: seq<int>) returns (info: seq<int>)
    requires |addrs| == |envp| + |argv|
    requires forall k :: 0 <= k < |addrs| ==> addrs[k] == StringAddress(envp + argv, k)
    ensures |info| == InfoWords(argv, envp, auxv)
    ensures Fits(argv, envp, auxv) ==> info == InfoBlock(argv, envp, auxv)
  {
    info := [|argv|];
    info := info + addrs[|envp|..];
    info := info + [0];
    info := info + addrs[..|envp|];
    info := info + [0];
    info := info + auxv + [AT_PAGESZ, PAGE_SIZE, AT_RANDOM, STACK_END - 0x10, AT_NULL, 0];
    if Fits(argv, envp, auxv) {
      var pointers := Pointers(envp + argv);
      assert addrs == pointers;
      assert info == [|argv|] + addrs[|envp|..] + [0] + addrs[..|envp|] + [0] + FullAuxv(auxv);
    }
  }

  method WriteInfo(image: array<Byte>, bytes: seq<Byte>)
    requires |bytes| <= image.Length
    modifies image
    ensures image[..|bytes|] == bytes && image[|bytes|..] == old(image[|bytes|..])
  {
    forall i | 0 <= i < |bytes| {
      image[i] := bytes[i];
    }
  }

  lemma Joined(image: seq<Byte>, bytes: seq<Byte>, flat: seq<Byte>)
    requires |bytes| + |flat| <= |image| && image[..|bytes|] == bytes && image[|image| - |flat|..] == flat
    requires forall i :: |bytes| <= i < |image| - |flat| ==> image[i] == 0
    ensures image == bytes + seq(|image| - |bytes| - |flat|, i => 0) + flat
  {
    assert image == image[..|bytes|] + image[|bytes|..|image| - |flat|] + image[|image| - |flat|..];
  }

  method BuildImage(argv: seq<CString>, envp: seq<CString>, auxv: seq<Word>, words: seq<Word>, total: nat)
    returns (image: array<Byte>)
    requires Fits(argv, envp, auxv) && words == InfoBlock(argv, envp, auxv)
    requires total == STACK_END - StackPointer(argv, envp, auxv)
    ensures fresh(image) && image[..] == Image(argv, envp, auxv)
  {
    image := new Byte[total](_ => 0);
    WriteStrings(image, envp + argv);
    ghost var written, flat := image[..], Flatten(envp + argv);
    var bytes := WordBytes(words);
    WriteInfo(image, bytes);
    assert forall i :: |bytes| <= i < total ==> image[i] == image[|bytes|..][i - |bytes|] == written[i];
    Joined(image[..], bytes, flat);
  }

  method SetupUserStack(argv: seq<CString>, envp: seq<CString>, auxv: seq<Word>, available: nat) returns (r: Setup)
    ensures r == Refused(TooLarge) <==> !Fits(argv, envp, auxv)
    ensures r == Refused(NoMemory) <==>
            Fits(argv, envp, auxv) && STACK_END - StackPointer(argv, envp, auxv) > available * PAGE_SIZE
    ensures r.Ready? ==> r.sp == StackPointer(argv, envp, auxv) && r.sp % 16 == 0
    ensures r.Ready? && HasKeys(auxv) && (forall k :: 0 <= k < |envp + argv| ==> 0 !in (envp + argv)[k]) ==>
              ReadStartUp(Through(r.pages), r.sp) == Some(StartUp(|argv|, argv, envp, Pairs(AuxPairs(auxv))))
  {
    var addrs, totalStrings := PlaceStrings(envp + argv);
    var info := CollectInfo(argv, envp, auxv, addrs[..]);
    var unaligned := STACK_END - totalStrings - 8 * |info|;
    var sp := unaligned - unaligned % 16;
    if STACK_END - sp > STACK_SZ {
      return Refused(TooLarge);
    }
    var image := BuildImage(argv, envp, auxv, info, STACK_END - sp);
    var pages, ok := MapImage(image[..], available);
    if !ok {
      return Refused(NoMemory);
    }
    ReadBack(pages, argv, envp, auxv);
    return Ready(sp, pages);
  }

  lemma ReadBack(pages: map<nat, seq<Byte>>, argv: seq<CString>, envp: seq<CString>, auxv: seq<Word>)
    requires Fits(argv, envp, auxv)
    requires var image := Image(argv, envp, auxv);
             forall va :: STACK_END - |image| <= va < STACK_END ==>
               Peek(pages, va) == Some(image[va - (STACK_END - |image|)])
    ensures HasKeys(auxv) && (forall k :: 0 <= k < |envp + argv| ==> 0 !in (envp + argv)[k]) ==>
              ReadStartUp(Through(pages), StackPointer(argv, envp, auxv))
              == Some(StartUp(|argv|, argv, envp, Pairs(AuxPairs(auxv))))
  {
    var mem, image, sp := Through(pages), Image(argv, envp, auxv), StackPointer(argv, envp, auxv);
    forall i | 0 <= i < |image| ensures mem(sp + i) == Some(image[i]) {
      assert Peek(pages, sp + i) == Some(image[sp + i - (STACK_END - |image|)]);
    }
    HoldsIntro(mem, sp, image);
    if HasKeys(auxv) && (forall k :: 0 <= k < |envp + argv| ==> 0 !in (envp + argv)[k]) {
      StartUpRoundTrip(mem, argv, envp, auxv);
    }
  }
}
