/** Little-endian fields in byte sequences, read and written. */
module LittleEndian {
  import opened Wrappers

  function Pow256(k: nat): (p: nat)
    ensures p > 0
  {
    if k == 0 then 1 else 256 * Pow256(k - 1)
  }

  function Decode(bytes: seq<Byte>): (n: nat)
    ensures n < Pow256(|bytes|)
  {
    if |bytes| == 0 then 0 else bytes[0] + 256 * Decode(bytes[1..])
  }

  function Encode(n: nat, k: nat): (bytes: seq<Byte>)
    ensures |bytes| == k
  {
    if k == 0 then [] else [n % 256] + Encode(n / 256, k - 1)
  }

  /** Writing a number that fits and reading it back gives the number. */
  lemma {:induction false} DecodeEncode(n: nat, k: nat)
    requires n < Pow256(k)
    ensures Decode(Encode(n, k)) == n
  {
    if k > 0 {
      DecodeEncode(n / 256, k - 1);
      assert Encode(n, k)[1..] == Encode(n / 256, k - 1);
    }
  }

  /** Reading bytes and writing the number back gives the bytes. */
  lemma {:induction false} EncodeDecode(bytes: seq<Byte>)
    ensures Encode(Decode(bytes), |bytes|) == bytes
  {
    if |bytes| > 0 {
      EncodeDecode(bytes[1..]);
      var n := Decode(bytes);
      assert n % 256 == bytes[0] && n / 256 == Decode(bytes[1..]);
    }
  }

  lemma Widths()
    ensures Pow256(1) == 256 && Pow256(2) == 0x1_0000
    ensures Pow256(4) == 0x1_0000_0000 && Pow256(8) == 0x1_0000_0000_0000_0000
  {
    assert Pow256(3) == 0x100_0000;
    assert Pow256(6) == 0x1_0000_0000_0000;
  }

  function U16At(bytes: seq<Byte>, offset: nat): (n: nat)
    requires offset + 2 <= |bytes|
    ensures n <= U16_MAX
  {
    Widths();
    Decode(bytes[offset..offset + 2])
  }

  function U32At(bytes: seq<Byte>, offset: nat): (n: nat)
    requires offset + 4 <= |bytes|
    ensures n <= U32_MAX
  {
    Widths();
    Decode(bytes[offset..offset + 4])
  }

  function U64At(bytes: seq<Byte>, offset: nat): (n: nat)
    requires offset + 8 <= |bytes|
    ensures n <= U64_MAX
  {
    Widths();
    Decode(bytes[offset..offset + 8])
  }
}
