/** Fixed-width little-endian numbers, as the kernel's structures lie in memory. */
module LittleEndian {
  import opened PageFrames

  function Pow256(n: nat): (p: nat)
    ensures p >= 1
  {
    if n == 0 then 1 else 256 * Pow256(n - 1)
  }

  function ByteAt(w: nat, i: nat): Byte {
    if i == 0 then w % 256 else ByteAt(w / 256, i - 1)
  }

  function Encode(w: nat, n: nat): (bytes: seq<Byte>) {
    seq(n, i requires 0 <= i < n => ByteAt(w, i))
  }

  function Decode(bytes: seq<Byte>): nat {
    if bytes == [] then 0 else bytes[0] + 256 * Decode(bytes[1..])
  }

  lemma {:induction false} RoundTrip(w: nat, n: nat)
    requires w < Pow256(n)
    ensures Decode(Encode(w, n)) == w
  {
    if n > 0 {
      RoundTrip(w / 256, n - 1);
      assert Encode(w, n)[0] == w % 256;
      assert Encode(w, n)[1..] == Encode(w / 256, n - 1);
    }
  }

  lemma Widths()
    ensures Pow256(4) == 0x1_0000_0000 && Pow256(8) == 0x1_0000_0000_0000_0000
  {
    assert Pow256(2) == 65536;
    assert Pow256(4) == 65536 * 65536;
    assert Pow256(6) == 65536 * 65536 * 65536;
  }
}
