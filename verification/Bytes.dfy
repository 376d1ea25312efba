/**
  Bytes in memory: fixed-width integers as memcpy copies them on a little-endian machine, in two's complement when
  signed.
 */
module Bytes {
  type byte = x: int | 0 <= x < 256

  function Pow256(n: nat): (p: int)
    ensures p > 0
  {
    if n == 0 then 1 else 256 * Pow256(n - 1)
  }

  // The low n bytes of v, least significant first.
  function Encode(v: nat, n: nat): (bs: seq<byte>)
    ensures |bs| == n
  {
    if n == 0 then [] else [v % 256] + Encode(v / 256, n - 1)
  }

  function Decode(bs: seq<byte>): nat {
    if bs == [] then 0 else bs[0] + 256 * Decode(bs[1..])
  }

  predicate InSigned(v: int, n: nat) {
    -Pow256(n) <= 2 * v < Pow256(n)
  }

  function EncodeSigned(v: int, n: nat): (bs: seq<byte>)
    requires InSigned(v, n)
    ensures |bs| == n
  {
    Encode(if v < 0 then v + Pow256(n) else v, n)
  }

  function DecodeSigned(bs: seq<byte>): int {
    var v := Decode(bs);
    if 2 * v >= Pow256(|bs|) then v - Pow256(|bs|) else v
  }

  lemma {:induction false} DecodeEncode(v: nat, n: nat)
    requires v < Pow256(n)
    ensures Decode(Encode(v, n)) == v
  {
    if n > 0 {
      assert v / 256 < Pow256(n - 1);
      DecodeEncode(v / 256, n - 1);
      assert Encode(v, n)[1..] == Encode(v / 256, n - 1);
    }
  }

  lemma DecodeEncodeSigned(v: int, n: nat)
    requires InSigned(v, n)
    ensures DecodeSigned(EncodeSigned(v, n)) == v
  {
    DecodeEncode(if v < 0 then v + Pow256(n) else v, n);
  }

  lemma Widths()
    ensures Pow256(2) == 0x1_0000 && Pow256(4) == 0x1_0000_0000 && Pow256(8) == 0x1_0000_0000_0000_0000
  {
    assert Pow256(1) == 256;
    assert Pow256(2) == 256 * Pow256(1);
    assert Pow256(3) == 256 * Pow256(2);
    assert Pow256(4) == 256 * Pow256(3);
    assert Pow256(5) == 256 * Pow256(4);
    assert Pow256(6) == 256 * Pow256(5);
    assert Pow256(7) == 256 * Pow256(6);
    assert Pow256(8) == 256 * Pow256(7);
  }

  function Overwritten(s: seq<byte>, pos: nat, bytes: seq<byte>): (r: seq<byte>)
    requires pos + |bytes| <= |s|
    ensures |r| == |s|
  {
    s[..pos] + bytes + s[pos + |bytes|..]
  }

  // memcpy into a buffer.
  method CopyInto(buffer: array<byte>, pos: nat, bytes: seq<byte>)
    requires pos + |bytes| <= buffer.Length
    modifies buffer
    ensures buffer[..] == old(buffer[..pos]) + bytes + old(buffer[pos + |bytes|..])
    ensures buffer[..] == Overwritten(old(buffer[..]), pos, bytes)
  {
    forall i | 0 <= i < |bytes| {
      buffer[pos + i] := bytes[i];
    }
  }

  // memmove within a buffer; the two ranges may overlap.
  method MoveWithin(buffer: array<byte>, to: nat, from: nat, n: nat)
    requires to + n <= buffer.Length && from + n <= buffer.Length
    modifies buffer
    ensures buffer[..] == Overwritten(old(buffer[..]), to, old(buffer[..])[from..from + n])
  {
    assert buffer[from..from + n] == buffer[..][from..from + n];
    CopyInto(buffer, to, buffer[from..from + n]);
  }
}
