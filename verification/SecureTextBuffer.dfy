/**
  The password entry buffer of src/shell-secure-text-buffer.c: a growable array of UTF-8 bytes with a hard cap. It
  refines a sequence of characters.
 */
module SecureTextBuffer {
  import opened Wrappers
  import opened Bytes
  import opened Utf8

  const MIN_SIZE: nat := 16

  // CLUTTER_TEXT_BUFFER_MAX_SIZE of Mutter's headers, which are not part of this repository: G_MAXUSHORT.
  const MAX_SIZE: nat := 65535

  const GUINT_RANGE: nat := 0x1_0000_0000

  datatype Notification =
    | Inserted(position: nat, chars: seq<byte>, nChars: nat)
    | Deleted(position: nat, nChars: nat)

  // The bytes of the first n characters fit beside `used` bytes and the terminating NUL.
  ghost predicate Fits(cs: seq<int>, n: nat, used: nat)
    requires AllChars(cs) && n <= |cs|
  {
    At(cs, n) + used + 1 <= MAX_SIZE
  }

  class Buffer {
    var text: array?<byte>
    var textSize: nat
    var textBytes: nat
    var textChars: nat
    var emitted: seq<Notification>   // the signals sent, in order

    ghost var contents: seq<int>

    ghost predicate Valid()
      reads this, text
    {
      && AllChars(contents) && textChars == |contents|
      && if text == null then textSize == 0 && textBytes == 0 && contents == []
         else
           && text.Length == textSize && MIN_SIZE <= textSize <= MAX_SIZE && textBytes + 1 <= textSize
           && text[..textBytes] == EncodeAll(contents) && text[textBytes] == 0
    }

    constructor ()
      ensures Valid() && contents == [] && emitted == []
    {
      text, textSize, textBytes, textChars := null, 0, 0, 0;
      emitted, contents := [], [];
    }

    // real_get_text: the bytes up to the NUL.
    method GetText() returns (bytes: seq<byte>)
      requires Valid()
      ensures bytes == EncodeAll(contents) && |bytes| == textBytes
      ensures DecodeAll(bytes) == Some(contents)
    {
      DecodeEncodeAll(contents);
      bytes := if text == null then [] else text[..textBytes];
    }

    method GetLength() returns (n: nat)
      requires Valid()
      ensures n == |contents|
    {
      n := textChars;
    }

    // The growth loop: the new size, and how much of the input goes in.
    method Grow(chars: seq<byte>, total: nat, n: nat, ghost cs: seq<int>) returns (nBytes: nat, nChars: nat)
      requires Valid() && AllChars(cs) && 0 !in cs && EncodeAll(cs) <= chars
      requires n <= |cs| && total == At(cs, n) && total + textBytes + 1 > textSize
      modifies this`textSize
      ensures nChars <= n && nBytes == At(cs, nChars)
      ensures nChars < n ==> !Fits(cs, nChars + 1, textBytes)
      ensures old(textSize) <= textSize <= MAX_SIZE && MIN_SIZE <= textSize
      ensures nBytes + textBytes + 1 <= textSize
    {
      hide EncodeAll;
      nBytes, nChars := total, n;
      while nBytes + textBytes + 1 > textSize
        invariant nBytes == total && nChars == n
        invariant old(textSize) <= textSize <= MAX_SIZE
        invariant textSize == 0 || (MIN_SIZE <= textSize && textBytes + 1 <= textSize)
        invariant textSize == 0 ==> textBytes == 0
        decreases MAX_SIZE - textSize
      {
        if textSize == 0 {
          textSize := MIN_SIZE;
        } else if 2 * textSize < MAX_SIZE {
          textSize := 2 * textSize;
        } else {
          textSize := MAX_SIZE;
          if nBytes > textSize - textBytes - 1 {
            nBytes := textSize - textBytes - 1;
            ghost var k;
            AtMonotone(cs, n, |cs|);
            AtEnds(cs);
            nBytes, k := FindPrevChar(chars, nBytes + 1, cs);
            nChars := StrLen(chars, nBytes, cs, k);
            BoundaryBelow(cs, k, n);
          }
          break;
        }
      }
    }

    // gcr_secure_memory_realloc
    method Realloc()
      requires AllChars(contents) && MIN_SIZE <= textSize <= MAX_SIZE && textBytes < textSize
      requires if text == null then textBytes == 0 && contents == []
               else text.Length <= textSize && textBytes < text.Length && text[..textBytes] == EncodeAll(contents)
      modifies this`text
      ensures fresh(text) && text != null && text.Length == textSize && text[..textBytes] == EncodeAll(contents)
    {
      var grown := new byte[textSize](_ => 0);
      if text != null {
        forall i | 0 <= i < text.Length {
          grown[i] := text[i];
        }
        assert grown[..textBytes] == text[..textBytes];
      }
      text := grown;
    }

    /**
      real_insert_text: splices in the longest prefix of the given characters that fits under the maximum size, and
      returns its length. `cs` are the characters whose UTF-8 form `chars` begins with.
     */
    method InsertText(position: nat, chars: seq<byte>, n: nat, ghost cs: seq<int>) returns (nChars: nat)
      requires Valid() && position <= textChars
      requires AllChars(cs) && 0 !in cs && EncodeAll(cs) <= chars && n <= |cs|
      modifies this, text
      ensures Valid() && (text == old(text) || fresh(text))
      ensures nChars <= n && Fits(cs, nChars, old(textBytes))
      ensures nChars < n ==> !Fits(cs, nChars + 1, old(textBytes))
      ensures contents == old(contents)[..position] + cs[..nChars] + old(contents)[position..]
      ensures emitted == old(emitted) + [Inserted(position, chars, nChars)]
    {
      hide EncodeAll, EncodeChar, AllChars, At;
      var nBytes := OffsetToPointer(chars, n, cs);
      nChars := n;
      if nBytes + textBytes + 1 > textSize {
        nBytes, nChars := Grow(chars, nBytes, n, cs);
        Realloc();
      }
      SpliceText(contents, cs, position, nChars);
      ghost var was := text[..textBytes];
      var at := OffsetToPointer(text[..textBytes], position, contents);
      assert text[..at] == was[..at] && text[at..textBytes] == was[at..];
      assert chars[..nBytes] == EncodeAll(cs)[..nBytes];
      Splice(at, chars, nBytes);
      contents := contents[..position] + cs[..nChars] + contents[position..];
      textChars := textChars + nChars;
      emitted := emitted + [Inserted(position, chars, nChars)];
    }

    // The moves of real_insert_text: make room at `at`, copy the new bytes in, and terminate.
    method Splice(at: nat, chars: seq<byte>, nBytes: nat)
      requires text != null && at <= textBytes && textBytes + nBytes + 1 <= text.Length && nBytes <= |chars|
      modifies this`textBytes, text
      ensures textBytes == old(textBytes) + nBytes && text[textBytes] == 0
      ensures text[..textBytes] == old(text[..at]) + chars[..nBytes] + old(text[at..textBytes])
    {
      MakeRoom(at, chars, nBytes);
      textBytes := textBytes + nBytes;
      text[textBytes] := 0;
    }

    method MakeRoom(at: nat, chars: seq<byte>, nBytes: nat)
      requires text != null && at <= textBytes && textBytes + nBytes < text.Length && nBytes <= |chars|
      modifies text
      ensures text[..textBytes + nBytes] == old(text[..at]) + chars[..nBytes] + old(text[at..textBytes])
    {
      hide Overwritten;
      var text: array<byte> := this.text;
      ghost var was := text[..];
      assert text[..at] == was[..at] && text[at..textBytes] == was[at..textBytes];
      MoveWithin(text, at + nBytes, at, textBytes - at);
      ghost var moved := text[..];
      CopyInto(text, at, chars[..nBytes]);
      ghost var now := text[..];
      RoomMade(was, moved, now, chars[..nBytes], at, textBytes);
      assert text[..textBytes + nBytes] == now[..textBytes + nBytes];
    }

    /**
      real_delete_text: removes the part of the given range that exists, and returns how many characters that is. The
      callers in Clutter never let the unsigned sum wrap.
     */
    method DeleteText(position: nat, n: nat) returns (nChars: nat)
      requires Valid() && (if position > textChars then textChars else position) + n < GUINT_RANGE
      modifies this`contents, this`textChars, this`textBytes, this`emitted, text
      ensures Valid()
      ensures
        var from := if position > |old(contents)| then |old(contents)| else position;
        && nChars == (if n > |old(contents)| - from then |old(contents)| - from else n)
        && contents == old(contents)[..from] + old(contents)[from + nChars..]
        && emitted == old(emitted) + if nChars > 0 then [Deleted(from, nChars)] else []
    {
      var from := if position > textChars then textChars else position;
      nChars := n;
      hide EncodeAll, EncodeChar, AllChars, At;
      if (from + nChars) % GUINT_RANGE > textChars {
        nChars := textChars - from;
      }
      if nChars > 0 {
        ghost var was := text[..textBytes];
        AtMonotone(contents, from, from + nChars);
        var start := OffsetToPointer(text[..textBytes], from, contents);
        var end := OffsetToPointer(text[..textBytes], from + nChars, contents);
        CutText(contents, from, nChars);
        assert text[..start] == was[..start] && text[end..textBytes] == was[end..];
        CutOut(start, end);
        textChars := textChars - nChars;
        contents := contents[..from] + contents[from + nChars..];
        emitted := emitted + [Deleted(from, nChars)];
      }
    }

    // The move of real_delete_text, which takes the NUL along.
    method CutOut(start: nat, end: nat)
      requires text != null && start <= end <= textBytes < text.Length && text[textBytes] == 0
      modifies this`textBytes, text
      ensures textBytes == old(textBytes) - (end - start) && text[textBytes] == 0
      ensures text[..textBytes] == old(text[..start]) + old(text[end..textBytes])
    {
      hide Overwritten;
      var text: array<byte> := this.text;
      ghost var was, n := text[..], textBytes;
      assert text[..start] == was[..start] && text[end..n] == was[end..n];
      MoveWithin(text, start, end, textBytes + 1 - end);
      ghost var now := text[..];
      GapClosed(was, now, start, end, n);
      textBytes := textBytes - (end - start);
      assert text[..textBytes] == now[..textBytes];
    }
  }

  lemma RoomMade(was: seq<byte>, moved: seq<byte>, now: seq<byte>, bytes: seq<byte>, at: nat, n: nat)
    requires at <= n && n + |bytes| <= |was|
    requires moved == Overwritten(was, at + |bytes|, was[at..n]) && now == Overwritten(moved, at, bytes)
    ensures |now| == |was| && now[..n + |bytes|] == was[..at] + bytes + was[at..n]
  {
    assert moved[..at] == was[..at];
    assert moved[at + |bytes|..] == was[at..n] + was[n + |bytes|..];
    FirstThree(was[..at], bytes, was[at..n], was[n + |bytes|..]);
  }

  lemma FirstThree(a: seq<byte>, b: seq<byte>, c: seq<byte>, d: seq<byte>)
    ensures (a + b + (c + d))[..|a| + |b| + |c|] == a + b + c
  {
  }

  // The NUL at n moves along.
  lemma GapClosed(was: seq<byte>, now: seq<byte>, start: nat, end: nat, n: nat)
    requires start <= end <= n < |was|
    requires now == Overwritten(was, start, was[end..n + 1])
    ensures |now| == |was| && now[..n - (end - start)] == was[..start] + was[end..n]
    ensures now[n - (end - start)] == was[n]
  {
    assert was[end..n + 1] == was[end..n] + [was[n]];
    FirstThree(was[..start], was[end..n], [was[n]], was[start + (n + 1 - end)..]);
  }

  lemma BoundaryBelow(cs: seq<int>, k: nat, n: nat)
    requires AllChars(cs) && k < |cs| && n <= |cs| && At(cs, k) < At(cs, n)
    ensures k < n
  {
    if n <= k {
      AtMonotone(cs, n, k);
    }
  }

  lemma SpliceText(cs: seq<int>, ds: seq<int>, position: nat, n: nat)
    requires AllChars(cs) && AllChars(ds) && position <= |cs| && n <= |ds|
    ensures AllChars(cs[..position] + ds[..n] + cs[position..])
    ensures At(cs, position) <= |EncodeAll(cs)|
    ensures At(ds, n) <= |EncodeAll(ds)| && EncodeAll(ds)[..At(ds, n)] == EncodeAll(ds[..n])
    ensures EncodeAll(cs[..position] + ds[..n] + cs[position..])
            == EncodeAll(cs)[..At(cs, position)] + EncodeAll(ds[..n]) + EncodeAll(cs)[At(cs, position)..]
  {
    hide EncodeChar;
    EncodeSplit(cs, position);
    EncodeSplit(ds, n);
    EncodeJoin(cs[..position], ds[..n]);
    EncodeJoin(cs[..position] + ds[..n], cs[position..]);
  }

  lemma CutText(cs: seq<int>, from: nat, n: nat)
    requires AllChars(cs) && from + n <= |cs|
    ensures AllChars(cs[..from] + cs[from + n..])
    ensures At(cs, from) <= |EncodeAll(cs)| && At(cs, from + n) <= |EncodeAll(cs)|
    ensures EncodeAll(cs[..from] + cs[from + n..]) == EncodeAll(cs)[..At(cs, from)] + EncodeAll(cs)[At(cs, from + n)..]
  {
    hide EncodeChar;
    EncodeSplit(cs, from);
    EncodeSplit(cs, from + n);
    EncodeJoin(cs[..from], cs[from + n..]);
  }
}
