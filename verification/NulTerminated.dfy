/** Names that a zero byte ends. */
module NulTerminated {

  import opened PageFrames

  function UpToNul(bytes: seq<Byte>): seq<Byte> {
    if bytes == [] || bytes[0] == 0 then [] else [bytes[0]] + UpToNul(bytes[1..])
  }

  lemma {:induction false} UpToNulEnds(bytes: seq<Byte>, n: nat)
    requires n < |bytes| && bytes[n] == 0 && forall i :: 0 <= i < n ==> bytes[i] != 0
    ensures UpToNul(bytes) == bytes[..n]
  {
    if n > 0 {
      UpToNulEnds(bytes[1..], n - 1);
      assert bytes[..n] == [bytes[0]] + bytes[1..][..n - 1];
    }
  }
}
