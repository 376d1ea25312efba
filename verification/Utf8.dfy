/**
  UTF-8 as section 3 of RFC 3629 defines it, and the GLib functions on it that src/shell-secure-text-buffer.c calls.
 */
module Utf8 {
  import opened Wrappers
  import opened Bytes

  // A Unicode scalar value.
  predicate IsChar(c: int) {
    0 <= c < 0xD800 || 0xE000 <= c < 0x11_0000
  }

  predicate AllChars(cs: seq<int>) {
    forall i :: 0 <= i < |cs| ==> IsChar(cs[i])
  }

  function EncodeChar(c: int): (bs: seq<byte>)
    requires IsChar(c)
    ensures 1 <= |bs| <= 4
  {
    if c < 0x80 then [c]
    else if c < 0x800 then [0xC0 + c / 64, 0x80 + c % 64]
    else if c < 0x1_0000 then [0xE0 + c / 4096, 0x80 + c / 64 % 64, 0x80 + c % 64]
    else [0xF0 + c / 262144, 0x80 + c / 4096 % 64, 0x80 + c / 64 % 64, 0x80 + c % 64]
  }

  function EncodeAll(cs: seq<int>): seq<byte>
    requires AllChars(cs)
  {
    if cs == [] then [] else EncodeChar(cs[0]) + EncodeAll(cs[1..])
  }

  // Whether a byte starts a character: (b & 0xc0) != 0x80.
  predicate IsStart(b: byte) {
    b < 0x80 || b >= 0xC0
  }

  // GLib's table of character lengths, by first byte.
  function Skip(b: byte): (n: nat)
    ensures 1 <= n <= 6
  {
    if b < 0xC0 then 1 else if b < 0xE0 then 2 else if b < 0xF0 then 3 else if b < 0xF8 then 4
    else if b < 0xFC then 5 else if b < 0xFE then 6 else 1
  }

  // ---------- decoding, and that it undoes encoding ----------

  predicate Continues(b: byte) {
    0x80 <= b < 0xC0
  }

  // The character at the front of bs and its length; None for anything the RFC forbids, overlong forms and surrogates
  // included.
  function DecodeChar(bs: seq<byte>): (r: Option<(int, nat)>)
    ensures r.Some? ==> IsChar(r.value.0) && 1 <= r.value.1 <= |bs|
  {
    if bs == [] then None
    else if bs[0] < 0x80 then Some((bs[0], 1))
    else if bs[0] < 0xC0 then None
    else if bs[0] < 0xE0 then
      if |bs| < 2 || !Continues(bs[1]) then None
      else Checked((bs[0] as int - 0xC0) * 64 + (bs[1] as int - 0x80), 0x80, 2)
    else if bs[0] < 0xF0 then
      if |bs| < 3 || !Continues(bs[1]) || !Continues(bs[2]) then None
      else Checked((bs[0] as int - 0xE0) * 4096 + (bs[1] as int - 0x80) * 64 + (bs[2] as int - 0x80), 0x800, 3)
    else if bs[0] < 0xF8 then
      if |bs| < 4 || !Continues(bs[1]) || !Continues(bs[2]) || !Continues(bs[3]) then None
      else Checked((bs[0] as int - 0xF0) * 262144 + (bs[1] as int - 0x80) * 4096 + (bs[2] as int - 0x80) * 64
                   + (bs[3] as int - 0x80), 0x1_0000, 4)
    else None
  }

  function Checked(c: int, least: int, length: nat): Option<(int, nat)> {
    if c >= least && IsChar(c) then Some((c, length)) else None
  }

  function DecodeAll(bs: seq<byte>): (r: Option<seq<int>>)
    ensures r.Some? ==> AllChars(r.value)
    decreases |bs|
  {
    if bs == [] then Some([])
    else match DecodeChar(bs)
      case None => None
      case Some(first) =>
        match DecodeAll(bs[first.1..])
        case None => None
        case Some(rest) => Some([first.0] + rest)
  }

  // The base-64 digits of a character make up the character.
  lemma Digits(c: nat)
    ensures c == c / 64 * 64 + c % 64
    ensures c == c / 4096 * 4096 + c / 64 % 64 * 64 + c % 64
    ensures c == c / 262144 * 262144 + c / 4096 % 64 * 4096 + c / 64 % 64 * 64 + c % 64
  {
    assert c / 64 / 64 == c / 4096 && c / 4096 / 64 == c / 262144;
    assert c / 64 == c / 4096 * 64 + c / 64 % 64;
    assert c / 4096 == c / 262144 * 64 + c / 4096 % 64;
  }

  lemma DecodeEncodeChar(c: int, rest: seq<byte>)
    requires IsChar(c)
    ensures DecodeChar(EncodeChar(c) + rest) == Some((c, |EncodeChar(c)|))
  {
    Digits(c);
    var one := EncodeChar(c);
    var bs := one + rest;
    assert bs[0] == one[0];
    assert |one| > 1 ==> bs[1] == one[1];
    assert |one| > 2 ==> bs[2] == one[2];
    assert |one| > 3 ==> bs[3] == one[3];
  }

  lemma {:induction false} DecodeEncodeAll(cs: seq<int>)
    requires AllChars(cs)
    ensures DecodeAll(EncodeAll(cs)) == Some(cs)
  {
    if cs != [] {
      hide EncodeChar, DecodeChar;
      DecodeEncodeChar(cs[0], EncodeAll(cs[1..]));
      DecodeEncodeAll(cs[1..]);
      assert EncodeAll(cs) == EncodeChar(cs[0]) + EncodeAll(cs[1..]);
      assert [cs[0]] + cs[1..] == cs;
      assert (EncodeChar(cs[0]) + EncodeAll(cs[1..]))[|EncodeChar(cs[0])|..] == EncodeAll(cs[1..]);
    }
  }

  // ---------- the shape of encoded text ----------

  lemma CharShape(c: int)
    requires IsChar(c)
    ensures IsStart(EncodeChar(c)[0]) && Skip(EncodeChar(c)[0]) == |EncodeChar(c)|
    ensures forall i :: 1 <= i < |EncodeChar(c)| ==> !IsStart(EncodeChar(c)[i])
    ensures c != 0 ==> 0 !in EncodeChar(c)
  {
  }

  lemma {:induction false} EncodeSplit(cs: seq<int>, k: nat)
    requires AllChars(cs) && k <= |cs|
    ensures AllChars(cs[..k]) && AllChars(cs[k..])
    ensures EncodeAll(cs) == EncodeAll(cs[..k]) + EncodeAll(cs[k..])
  {
    hide EncodeChar;
    if k == 0 {
      assert cs[..0] == [] && cs[0..] == cs;
    } else {
      EncodeSplit(cs[1..], k - 1);
      assert cs[..k][1..] == cs[1..][..k - 1];
      assert cs[1..][k - 1..] == cs[k..];
    }
  }

  lemma EncodeJoin(cs: seq<int>, ds: seq<int>)
    requires AllChars(cs) && AllChars(ds)
    ensures AllChars(cs + ds) && EncodeAll(cs + ds) == EncodeAll(cs) + EncodeAll(ds)
  {
    hide EncodeChar;
    EncodeSplit(cs + ds, |cs|);
    assert (cs + ds)[..|cs|] == cs && (cs + ds)[|cs|..] == ds;
  }

  // Where character k starts, for k up to the number of characters.
  ghost function At(cs: seq<int>, k: nat): nat
    requires AllChars(cs) && k <= |cs|
  {
    |EncodeAll(cs[..k])|
  }

  lemma AtNext(cs: seq<int>, k: nat)
    requires AllChars(cs) && k < |cs|
    ensures At(cs, k + 1) == At(cs, k) + |EncodeChar(cs[k])| <= |EncodeAll(cs)|
    ensures EncodeAll(cs)[At(cs, k)..At(cs, k + 1)] == EncodeChar(cs[k])
  {
    hide EncodeChar;
    EncodeSplit(cs, k);
    EncodeSplit(cs, k + 1);
    EncodeSplit(cs[..k + 1], k);
    assert cs[..k + 1][..k] == cs[..k] && cs[..k + 1][k..] == [cs[k]];
    assert EncodeAll([cs[k]]) == EncodeChar(cs[k]) + EncodeAll([]);
  }

  lemma AtEnds(cs: seq<int>)
    requires AllChars(cs)
    ensures At(cs, 0) == 0 && At(cs, |cs|) == |EncodeAll(cs)|
  {
    assert cs[..|cs|] == cs;
  }

  lemma {:induction false} AtMonotone(cs: seq<int>, j: nat, k: nat)
    requires AllChars(cs) && j <= k <= |cs|
    ensures At(cs, j) + (k - j) <= At(cs, k) <= |EncodeAll(cs)|
    decreases k
  {
    hide EncodeChar;
    if j < k {
      AtMonotone(cs, j, k - 1);
      AtNext(cs, k - 1);
    } else {
      EncodeSplit(cs, k);
    }
  }

  // Character starts are exactly the offsets At gives.
  lemma {:induction false} StartsAreAt(cs: seq<int>, k: nat, p: nat)
    requires AllChars(cs) && k < |cs| && At(cs, k) <= p < At(cs, k + 1)
    ensures p < |EncodeAll(cs)| && (IsStart(EncodeAll(cs)[p]) <==> p == At(cs, k))
    ensures Skip(EncodeAll(cs)[At(cs, k)]) == |EncodeChar(cs[k])|
    ensures 0 !in cs ==> EncodeAll(cs)[p] != 0
  {
    AtNext(cs, k);
    CharShape(cs[k]);
    hide EncodeChar, EncodeAll;
    var bs, one := EncodeAll(cs), EncodeChar(cs[k]);
    assert bs[p] == bs[At(cs, k)..At(cs, k + 1)][p - At(cs, k)] == one[p - At(cs, k)];
    assert bs[At(cs, k)] == one[0];
  }

  // ---------- the GLib functions ----------

  // g_utf8_offset_to_pointer, for an offset within the text: the byte offset of character `offset`.
  method OffsetToPointer(bs: seq<byte>, offset: nat, ghost cs: seq<int>) returns (p: nat)
    requires AllChars(cs) && EncodeAll(cs) <= bs && offset <= |cs|
    ensures p == At(cs, offset) <= |EncodeAll(cs)|
  {
    hide EncodeChar, EncodeAll, Skip;
    AtEnds(cs);
    p := 0;
    var k := 0;
    while k < offset
      invariant 0 <= k <= offset && p == At(cs, k) <= |EncodeAll(cs)|
    {
      AtNext(cs, k);
      StartsAreAt(cs, k, p);
      p := p + Skip(bs[p]);
      k := k + 1;
    }
  }

  // g_utf8_find_prev_char: the last character start before p.
  method FindPrevChar(bs: seq<byte>, p: nat, ghost cs: seq<int>) returns (q: nat, ghost k: nat)
    requires AllChars(cs) && EncodeAll(cs) <= bs && 0 < p <= |EncodeAll(cs)|
    ensures q < p && k < |cs| && q == At(cs, k) && p <= At(cs, k + 1)
  {
    hide EncodeChar, EncodeAll, Skip;
    AtEnds(cs);
    q := p - 1;
    k := CharAt(cs, q);
    StartsAreAt(cs, k, q);
    while !IsStart(bs[q])
      decreases q
      invariant q < p && k < |cs| && At(cs, k) <= q && p <= At(cs, k + 1)
      invariant AllChars(cs) && EncodeAll(cs) <= bs
    {
      StartsAreAt(cs, k, q);
      q := q - 1;
    }
    StartsAreAt(cs, k, q);
  }

  // The character a byte belongs to.
  lemma {:induction false} CharAt(cs: seq<int>, p: nat) returns (k: nat)
    requires AllChars(cs) && p < |EncodeAll(cs)|
    ensures k < |cs| && At(cs, k) <= p < At(cs, k + 1)
  {
    hide EncodeChar, EncodeAll;
    AtEnds(cs);
    k := 0;
    while At(cs, k + 1) <= p
      invariant k < |cs| && At(cs, k) <= p
      decreases |cs| - k
    {
      k := k + 1;
    }
  }

  // g_utf8_strlen with a byte limit at a character boundary; it stops at a NUL as well.
  method StrLen(bs: seq<byte>, max: nat, ghost cs: seq<int>, ghost n: nat) returns (length: nat)
    requires AllChars(cs) && EncodeAll(cs) <= bs && 0 !in cs && n <= |cs| && max == At(cs, n)
    ensures length == n
  {
    hide EncodeChar, EncodeAll, Skip;
    AtEnds(cs);
    AtMonotone(cs, n, |cs|);
    length := 0;
    var p := 0;
    while p < max && bs[p] != 0
      invariant 0 <= length <= n && p == At(cs, length)
    {
      AtMonotone(cs, length, n);
      AtNext(cs, length);
      StartsAreAt(cs, length, p);
      AtMonotone(cs, length + 1, n);
      p := p + Skip(bs[p]);
      length := length + 1;
    }
    AtMonotone(cs, length, n);
    if length < n {
      AtNext(cs, length);
      StartsAreAt(cs, length, p);
    }
  }
}
