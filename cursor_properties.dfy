/** What the bounds-checked reads, subarray and toString of BufferCursor promise,
    stated on the specification functions that the class methods are proved equal to. */
module CursorProperties {
  import opened Bytes
  import opened Results
  import opened Cursor

  /** The bytes e sit in data starting at pos. */
  predicate Within(data: seq<byte>, pos: nat, e: seq<byte>)
  {
    pos + |e| <= |data| && data[pos .. pos + |e|] == e
  }

  /** Bytes that sit back to back can be found one after the other. */
  lemma WithinSplit(data: seq<byte>, pos: nat, a: seq<byte>, b: seq<byte>)
    requires Within(data, pos, a + b)
    ensures Within(data, pos, a) && Within(data, pos + |a|, b)
  {
    assert data[pos .. pos + |a|] == (a + b)[..|a|] == a;
    assert data[pos + |a| .. pos + |a| + |b|] == (a + b)[|a|..] == b;
  }

  /** The same, with the position where the second run starts. */
  lemma SplitAt(data: seq<byte>, pos: nat, a: seq<byte>, b: seq<byte>) returns (mid: nat)
    requires Within(data, pos, a + b)
    ensures mid == pos + |a| && Within(data, pos, a) && Within(data, mid, b) && mid + |b| == pos + |a + b|
  {
    WithinSplit(data, pos, a, b);
    mid := pos + |a|;
  }

  /** Three runs of bytes back to back, found one after the other. */
  lemma WithinSplit3(data: seq<byte>, pos: nat, a: seq<byte>, b: seq<byte>, c: seq<byte>)
    requires Within(data, pos, a + b + c)
    ensures Within(data, pos, a) && Within(data, pos + |a|, b) && Within(data, pos + |a| + |b|, c)
    ensures |a + b + c| == |a| + |b| + |c|
  {
    WithinSplit(data, pos, a + b, c);
    WithinSplit(data, pos, a, b);
  }

  /** Four runs of bytes back to back, found one after the other. */
  lemma WithinSplit4(data: seq<byte>, pos: nat, a: seq<byte>, b: seq<byte>, c: seq<byte>, d: seq<byte>)
    requires Within(data, pos, a + b + c + d)
    ensures Within(data, pos, a) && Within(data, pos + |a|, b) && Within(data, pos + |a| + |b|, c)
    ensures Within(data, pos + |a| + |b| + |c|, d)
  {
    WithinSplit(data, pos, a + b + c, d);
    WithinSplit(data, pos, a + b, c);
    WithinSplit(data, pos, a, b);
  }

  /** A read of size bytes at cursor+offset succeeds exactly when they lie inside the
      buffer; it then yields those bytes and moves the cursor by size+offset, and
      otherwise throws a RangeError and leaves the cursor alone. */
  lemma TakeAtBounds(data: seq<byte>, pos: nat, size: nat, offset: nat)
    ensures TakeAt(data, pos, size, offset).result.Ok? <==> pos + offset + size <= |data|
    ensures TakeAt(data, pos, size, offset).result.Ok? ==>
              TakeAt(data, pos, size, offset) == Read(Ok(data[pos + offset .. pos + offset + size]), pos + offset + size)
    ensures TakeAt(data, pos, size, offset).result.Err? ==>
              TakeAt(data, pos, size, offset) == Read(Err(RangeError), pos)
  {
  }

  // ---------------------------------------------------------------------------
  // Sequential reads

  function Sum(sizes: seq<nat>): nat
  {
    if sizes == [] then 0 else sizes[0] + Sum(sizes[1..])
  }

  /** readSafelyAndMoveCursorPosition(size, 0) for each size in turn, joining the bytes,
      stopping at the first throw. */
  function TakeAll(data: seq<byte>, pos: nat, sizes: seq<nat>): Read<seq<byte>>
    decreases |sizes|
  {
    if sizes == [] then Read(Ok([]), pos)
    else
      var first := TakeAt(data, pos, sizes[0], 0);
      if first.result.Err? then Fail(first)
      else
        var rest := TakeAll(data, first.pos, sizes[1..]);
        if rest.result.Err? then Fail(rest)
        else Read(Ok(first.result.value + rest.result.value), rest.pos)
  }

  /** Consecutive reads see consecutive bytes: they all succeed exactly when their
      total fits, and then they read the bytes in order and end past all of them. */
  lemma {:induction false} TakeAllContiguous(data: seq<byte>, pos: nat, sizes: seq<nat>)
    requires pos <= |data|
    ensures TakeAll(data, pos, sizes).result.Ok? <==> pos + Sum(sizes) <= |data|
    ensures TakeAll(data, pos, sizes).result.Ok? ==>
              TakeAll(data, pos, sizes) == Read(Ok(data[pos .. pos + Sum(sizes)]), pos + Sum(sizes))
    decreases |sizes|
  {
    if sizes != [] {
      var n := sizes[0];
      assert Sum(sizes) == n + Sum(sizes[1..]);
      var first := TakeAt(data, pos, n, 0);
      if pos + n <= |data| {
        assert first == Read(Ok(data[pos .. pos + n]), pos + n);
        TakeAllContiguous(data, pos + n, sizes[1..]);
        var rest := TakeAll(data, pos + n, sizes[1..]);
        if pos + Sum(sizes) <= |data| {
          assert rest == Read(Ok(data[pos + n .. pos + Sum(sizes)]), pos + Sum(sizes));
          assert data[pos .. pos + Sum(sizes)] == data[pos .. pos + n] + data[pos + n .. pos + Sum(sizes)];
          assert TakeAll(data, pos, sizes) == Read(Ok(first.result.value + rest.result.value), rest.pos);
        } else {
          assert rest.result.Err?;
          assert TakeAll(data, pos, sizes) == Fail(rest);
        }
      } else {
        assert first.result.Err?;
        assert TakeAll(data, pos, sizes) == Fail(first);
      }
    } else {
      assert data[pos .. pos] == [];
    }
  }

  // ---------------------------------------------------------------------------
  // Big-endian values

  /** A read of an encoded unsigned value gives that value back. */
  lemma UnsignedAtOfEncoding(data: seq<byte>, pos: nat, size: nat, offset: nat, n: nat)
    requires n < Pow256(size) && Within(data, pos + offset, EncodeUnsigned(n, size))
    ensures UnsignedAt(data, pos, size, offset) == Read(Ok(n), pos + offset + size)
  {
    assert TakeAt(data, pos, size, offset) == Read(Ok(EncodeUnsigned(n, size)), pos + offset + size);
  }

  /** A one-byte read is the byte itself. */
  lemma ByteAt(data: seq<byte>, pos: nat, offset: nat)
    requires pos + offset < |data|
    ensures UnsignedAt(data, pos, 1, offset) == Read(Ok(data[pos + offset] as int), pos + offset + 1)
  {
    assert data[pos + offset .. pos + offset + 1] == [data[pos + offset]];
    UnsignedOfOneByte(data[pos + offset]);
  }

  /** The only bytes an unsigned read turns into n are the encoding of n. */
  lemma UnsignedAtInverse(data: seq<byte>, pos: nat, size: nat, offset: nat)
    requires UnsignedAt(data, pos, size, offset).result.Ok?
    ensures Within(data, pos + offset, EncodeUnsigned(UnsignedAt(data, pos, size, offset).result.value, size))
  {
    var s := data[pos + offset .. pos + offset + size];
    UnsignedInjective(s, EncodeUnsigned(Unsigned(s), size));
  }

  /** A read of an encoded two's-complement value gives that value back. */
  lemma SignedAtOfEncoding(data: seq<byte>, pos: nat, size: nat, offset: nat, v: int)
    requires size > 0 && -(Pow256(size) as int) <= 2 * v < Pow256(size)
    requires Within(data, pos + offset, EncodeSigned(v, size))
    ensures SignedAt(data, pos, size, offset) == Read(Ok(v), pos + offset + size)
  {
    assert TakeAt(data, pos, size, offset) == Read(Ok(EncodeSigned(v, size)), pos + offset + size);
  }

  /** Two's-complement reading is injective on strings of one length. */
  lemma SignedInjective(s: seq<byte>, t: seq<byte>)
    requires |s| == |t| && Signed(s) == Signed(t)
    ensures s == t
  {
    assert Unsigned(s) == Unsigned(t);
    UnsignedInjective(s, t);
  }

  /** The only bytes a signed read turns into v are the encoding of v. */
  lemma SignedAtInverse(data: seq<byte>, pos: nat, size: nat, offset: nat)
    requires size > 0 && SignedAt(data, pos, size, offset).result.Ok?
    ensures Within(data, pos + offset, EncodeSigned(SignedAt(data, pos, size, offset).result.value, size))
  {
    var s := data[pos + offset .. pos + offset + size];
    SignedInjective(s, EncodeSigned(Signed(s), size));
  }

  /** A leading byte of 128 or more makes a signed read negative: readInt32BE is not readUInt32BE. */
  lemma SignedNegativeWhenTopBitSet(s: seq<byte>)
    requires |s| > 0 && s[0] >= 128
    ensures Signed(s) < 0
  {
    UnsignedAtLeastLeadingByte(s);
    calc {
      2 * Unsigned(s);
    >= 2 * (s[0] as int * Pow256(|s| - 1));
    >= 256 * Pow256(|s| - 1);
    == Pow256(|s|);
    }
  }

  /** The leading byte weighs 256^(n-1) in an n-byte big-endian string. */
  lemma {:induction false} UnsignedAtLeastLeadingByte(s: seq<byte>)
    requires |s| > 0
    ensures Unsigned(s) >= s[0] as int * Pow256(|s| - 1)
    decreases |s|
  {
    if |s| > 1 {
      var init := s[..|s| - 1];
      UnsignedAtLeastLeadingByte(init);
      assert init[0] == s[0];
      calc {
        Unsigned(s);
        Unsigned(init) * 256 + s[|s| - 1] as int;
      >= Unsigned(init) * 256;
      >= s[0] as int * Pow256(|s| - 2) * 256;
        s[0] as int * Pow256(|s| - 1);
      }
    } else {
      assert s[..0] == [];
    }
  }

  // ---------------------------------------------------------------------------
  // subarray and toString

  /** With a non-negative length: exactly that many bytes are taken and the cursor moves
      past them, or a RangeError leaves the cursor where it was. */
  lemma RegionAtWithLength(data: seq<byte>, pos: nat, n: nat)
    ensures RegionAt(data, pos, Some(n)).result.Ok? <==> pos + n <= |data|
    ensures RegionAt(data, pos, Some(n)).result.Ok? ==>
              RegionAt(data, pos, Some(n)) == Read(Ok(data[pos .. pos + n]), pos + n)
    ensures RegionAt(data, pos, Some(n)).result.Err? ==> RegionAt(data, pos, Some(n)).pos == pos
  {
  }

  /** A region read as long as the bytes found at the cursor reads exactly those bytes. */
  lemma RegionAtOfBytes(data: seq<byte>, pos: nat, b: seq<byte>)
    requires Within(data, pos, b)
    ensures RegionAt(data, pos, Some(|b|)) == Read(Ok(b), pos + |b|)
  {
  }

  /** Without a length it takes the rest and moves the cursor to the end of the buffer. */
  lemma RegionAtRest(data: seq<byte>, pos: nat)
    requires pos <= |data|
    ensures RegionAt(data, pos, None) == Read(Ok(data[pos..]), |data|)
  {
    assert data[pos .. |data|] == data[pos..];
  }

  /** A negative length that stays inside the buffer is not rejected: the result is
      empty and the cursor moves backwards to cursor + length. */
  lemma RegionAtNegativeLength(data: seq<byte>, pos: nat, n: int)
    requires n < 0 && 0 <= pos + n && pos <= |data|
    ensures RegionAt(data, pos, Some(n)) == Read(Ok([]), pos + n)
  {
  }
}
