/** A reference encoder for Protocol16 values: every value is written behind the tag
    it carries, in the layout the decoder reads. A map has no order of its own, so a
    map value is written in one order chosen among its keys; the entry-list encoders
    at the end write dictionaries, hashtables and parameter tables in any given order,
    repeated keys included. */
module Protocol16Encoding {
  import opened Bytes
  import opened Maps
  import opened Protocol16
  import T = Protocol16Types

  /** The tag a value is written with (Null uses 42). */
  function TagOf(v: Value): (c: int)
    ensures 0 <= c < 256 && T.FromCode(c).Some?
  {
    match v
    case Null => T.NullCode
    case Byte(_) => T.ByteCode
    case Boolean(_) => T.BooleanCode
    case Short(_) => T.ShortCode
    case Integer(_) => T.IntegerCode
    case IntegerArray(_) => T.IntegerArrayCode
    case Long(_) => T.LongCode
    case Float(_) => T.FloatCode
    case Double(_) => T.DoubleCode
    case String(_) => T.StringCode
    case StringArray(_) => T.StringArrayCode
    case ByteArray(_) => T.ByteArrayCode
    case Array(_) => T.ArrayCode
    case ObjectArray(_) => T.ObjectArrayCode
    case Dictionary(_) => T.DictionaryCode
    case OperationRequest(_, _) => T.OperationRequestCode
    case OperationResponse(_, _, _, _) => T.OperationResponseCode
  }

  /** The shared element tag of an Array: that of its first element (Null's when empty). */
  function ArrayTag(es: seq<Value>): (c: int)
    ensures 0 <= c < 256
  {
    if es == [] then T.NullCode else TagOf(es[0])
  }

  predicate FitsSigned(v: int, k: nat)
  {
    -(Pow256(k) as int) <= 2 * v < Pow256(k)
  }

  /** Values the encoder covers: numbers within their width, lengths within their
      count field, Arrays whose elements share one tag; maps as KeyedEncodable says. */
  ghost predicate Encodable(v: Value)
    decreases v, 1
  {
    match v
    case Null => true
    case Byte(b) => 0 <= b < Pow256(1)
    case Boolean(_) => true
    case Short(s) => 0 <= s < Pow256(2)
    case Integer(i) => FitsSigned(i, 4)
    case IntegerArray(a) => FitsSigned(|a|, 4) && forall i :: 0 <= i < |a| ==> FitsSigned(a[i], 4)
    case Long(l) => FitsSigned(l, 8)
    case Float(f) => 0 <= f < Pow256(4)
    case Double(d) => 0 <= d < Pow256(8)
    case String(u) => |u| < Pow256(2)
    case StringArray(ss) => |ss| < Pow256(2) && forall i :: 0 <= i < |ss| ==> |ss[i]| < Pow256(2)
    case ByteArray(b) => |b| < Pow256(4)
    case Array(es) => |es| < Pow256(2) && forall i | 0 <= i < |es| :: Encodable(es[i]) && TagOf(es[i]) == ArrayTag(es)
    case ObjectArray(os) => |os| < Pow256(2) && forall i | 0 <= i < |os| :: Encodable(os[i])
    case Dictionary(_) => KeyedEncodable(v)
    case OperationRequest(_, _) => KeyedEncodable(v)
    case OperationResponse(_, _, _, _) => KeyedEncodable(v)
  }

  predicate IsKeyed(v: Value)
  {
    v.Dictionary? || v.OperationRequest? || v.OperationResponse?
  }

  /** The values that hold a map: at most 65535 entries, every key and value encodable,
      parameter ids and operation codes within a byte, return codes within uint16. */
  ghost predicate KeyedEncodable(v: Value)
    requires IsKeyed(v)
    decreases v, 0
  {
    match v
    case Dictionary(m) => |m| < Pow256(2) && forall k | k in m :: Encodable(k) && Encodable(m[k])
    case OperationRequest(op, p) =>
      0 <= op < Pow256(1) && |p| < Pow256(2) && forall k | k in p :: 0 <= k < Pow256(1) && Encodable(p[k])
    case OperationResponse(op, rc, d, p) =>
      && 0 <= op < Pow256(1) && 0 <= rc < Pow256(2) && Encodable(d)
      && |p| < Pow256(2) && forall k | k in p :: 0 <= k < Pow256(1) && Encodable(p[k])
  }

  /** The bytes that follow the tag. */
  ghost function EncodeBody(v: Value): seq<byte>
    requires Encodable(v)
    decreases v, 3
  {
    match v
    case Null => []
    case Byte(b) => EncodeUnsigned(b, 1)
    case Boolean(f) => [if f then 1 else 0]
    case Short(s) => EncodeUnsigned(s, 2)
    case Integer(i) => EncodeSigned(i, 4)
    case IntegerArray(a) => EncodeSigned(|a|, 4) + EncodeIntegers(a)
    case Long(l) => EncodeSigned(l, 8)
    case Float(f) => EncodeUnsigned(f, 4)
    case Double(d) => EncodeUnsigned(d, 8)
    case String(u) => EncodeString(u)
    case StringArray(ss) => EncodeUnsigned(|ss|, 2) + EncodeStrings(ss)
    case ByteArray(b) => EncodeUnsigned(|b|, 4) + b
    case Array(es) => EncodeUnsigned(|es|, 2) + EncodeUnsigned(ArrayTag(es), 1) + EncodeBodies(es)
    case ObjectArray(os) => EncodeUnsigned(|os|, 2) + EncodeTagged(os)
    case Dictionary(_) => EncodeKeyedBody(v)
    case OperationRequest(_, _) => EncodeKeyedBody(v)
    case OperationResponse(_, _, _, _) => EncodeKeyedBody(v)
  }

  /** The body of a value that holds a map, its keys in the order Enumeration chooses.
      A Dictionary declares both slot tags 0, so every key and value carries its own tag. */
  ghost function EncodeKeyedBody(v: Value): seq<byte>
    requires IsKeyed(v) && KeyedEncodable(v)
    decreases v, 2
  {
    match v
    case Dictionary(m) =>
      var ks := Enumeration(m.Keys);
      EncodeUnsigned(T.UnknownCode, 1) + EncodeUnsigned(T.UnknownCode, 1) + EncodeUnsigned(|ks|, 2)
      + EncodeMapEntries(v, ks)
    case OperationRequest(op, _) =>
      EncodeUnsigned(op, 1) + EncodeTableOf(v)
    case OperationResponse(op, rc, d, _) =>
      EncodeUnsigned(op, 1) + EncodeUnsigned(rc, 2) + (EncodeUnsigned(TagOf(d), 1) + EncodeBody(d) + EncodeTableOf(v))
  }

  /** The parameter table of an operation value. */
  ghost function EncodeTableOf(v: Value): seq<byte>
    requires (v.OperationRequest? || v.OperationResponse?) && KeyedEncodable(v)
    decreases v, 1
  {
    var ks := Enumeration(v.parameters.Keys);
    [0] + EncodeUnsigned(|ks|, 2) + EncodeParameterEntries(v, ks)
  }

  /** The entries of a Dictionary value under the listed keys, each slot behind its tag. */
  ghost function EncodeMapEntries(v: Value, ks: seq<Value>): seq<byte>
    requires v.Dictionary?
    requires (forall k | k in ks :: k in v.entries) && forall k | k in v.entries :: Encodable(k) && Encodable(v.entries[k])
    decreases v, 0, |ks|
  {
    if ks == [] then []
    else EncodeSlot(T.UnknownCode, ks[0]) + EncodeSlot(T.UnknownCode, v.entries[ks[0]]) + EncodeMapEntries(v, ks[1..])
  }

  /** The parameters of an operation value under the listed ids. */
  ghost function EncodeParameterEntries(v: Value, ks: seq<int>): seq<byte>
    requires v.OperationRequest? || v.OperationResponse?
    requires (forall k | k in ks :: k in v.parameters)
    requires forall k | k in v.parameters :: 0 <= k < Pow256(1) && Encodable(v.parameters[k])
    decreases v, 0, |ks|
  {
    if ks == [] then [] else EncodeTableEntry(ks[0], v.parameters[ks[0]]) + EncodeParameterEntries(v, ks[1..])
  }

  /** A dictionary slot: the value's tag when the declared tag is a sentinel, then its body. */
  ghost function EncodeSlot(declared: int, x: Value): seq<byte>
    requires Encodable(x)
    decreases x, 4
  {
    (if T.IsInlineSentinel(declared) then EncodeUnsigned(TagOf(x), 1) else []) + EncodeBody(x)
  }

  /** One parameter-table entry: three skipped bytes, the id, four skipped bytes, the
      tag, the body. The skipped bytes are written as zeros. */
  ghost function EncodeTableEntry(k: int, x: Value): seq<byte>
    requires 0 <= k < Pow256(1) && Encodable(x)
    decreases x, 4
  {
    [0, 0, 0, k as byte, 0, 0, 0, 0, TagOf(x) as byte] + EncodeBody(x)
  }

  function EncodeString(u: seq<byte>): seq<byte>
    requires |u| < Pow256(2)
  {
    EncodeUnsigned(|u|, 2) + u
  }

  function EncodeIntegers(a: seq<int>): seq<byte>
    requires forall i :: 0 <= i < |a| ==> FitsSigned(a[i], 4)
  {
    if a == [] then []
    else
      assert FitsSigned(a[0], 4);
      EncodeSigned(a[0], 4) + EncodeIntegers(a[1..])
  }

  function EncodeStrings(ss: seq<seq<byte>>): seq<byte>
    requires forall i :: 0 <= i < |ss| ==> |ss[i]| < Pow256(2)
  {
    if ss == [] then [] else EncodeString(ss[0]) + EncodeStrings(ss[1..])
  }

  /** Array elements: bodies only, the tag is written once before them. */
  ghost function EncodeBodies(es: seq<Value>): seq<byte>
    requires forall i | 0 <= i < |es| :: Encodable(es[i])
    decreases es, 0
  {
    if es == [] then [] else EncodeBody(es[0]) + EncodeBodies(es[1..])
  }

  /** ObjectArray elements: each behind its own tag. */
  ghost function EncodeTagged(os: seq<Value>): seq<byte>
    requires forall i | 0 <= i < |os| :: Encodable(os[i])
    decreases os, 0
  {
    if os == [] then [] else EncodeUnsigned(TagOf(os[0]), 1) + EncodeBody(os[0]) + EncodeTagged(os[1..])
  }

  // Entry lists

  /** A slot holds a value of the declared tag, or any value when the tag is a sentinel. */
  ghost predicate SlotFits(declared: int, x: Value)
  {
    Encodable(x) && (T.IsInlineSentinel(declared) || declared == TagOf(x))
  }

  ghost predicate EntriesFit(keyTypeCode: int, valueTypeCode: int, entries: seq<(Value, Value)>)
  {
    forall i | 0 <= i < |entries| :: SlotFits(keyTypeCode, entries[i].0) && SlotFits(valueTypeCode, entries[i].1)
  }

  /** Dictionary or Hashtable entries, key slot then value slot, in the given order. */
  ghost function EncodeEntries(keyTypeCode: int, valueTypeCode: int, entries: seq<(Value, Value)>): seq<byte>
    requires EntriesFit(keyTypeCode, valueTypeCode, entries)
    decreases |entries|
  {
    if entries == [] then []
    else EncodeSlot(keyTypeCode, entries[0].0) + EncodeSlot(valueTypeCode, entries[0].1)
         + EncodeEntries(keyTypeCode, valueTypeCode, entries[1..])
  }

  /** The body of a Dictionary: the declared key and value tags, a uint16 count, the entries. */
  ghost function EncodeDictionary(keyTypeCode: int, valueTypeCode: int, entries: seq<(Value, Value)>): seq<byte>
    requires 0 <= keyTypeCode < Pow256(1) && 0 <= valueTypeCode < Pow256(1) && |entries| < Pow256(2)
    requires EntriesFit(keyTypeCode, valueTypeCode, entries)
  {
    EncodeUnsigned(keyTypeCode, 1) + EncodeUnsigned(valueTypeCode, 1) + EncodeUnsigned(|entries|, 2)
    + EncodeEntries(keyTypeCode, valueTypeCode, entries)
  }

  /** The body of a Hashtable: a uint16 count, then entries that all carry their own tags. */
  ghost function EncodeHashtable(entries: seq<(Value, Value)>): seq<byte>
    requires |entries| < Pow256(2) && EntriesFit(T.UnknownCode, T.UnknownCode, entries)
  {
    EncodeUnsigned(|entries|, 2) + EncodeEntries(T.UnknownCode, T.UnknownCode, entries)
  }

  ghost predicate TableEntriesFit(entries: seq<(int, Value)>)
  {
    forall i | 0 <= i < |entries| :: 0 <= entries[i].0 < Pow256(1) && Encodable(entries[i].1)
  }

  ghost function EncodeTableEntries(entries: seq<(int, Value)>): seq<byte>
    requires TableEntriesFit(entries)
    decreases |entries|
  {
    if entries == [] then [] else EncodeTableEntry(entries[0].0, entries[0].1) + EncodeTableEntries(entries[1..])
  }

  /** A parameter table: a skipped byte (written as zero), a uint16 count, the entries. */
  ghost function EncodeParameterTable(entries: seq<(int, Value)>): seq<byte>
    requires |entries| < Pow256(2) && TableEntriesFit(entries)
  {
    [0] + EncodeUnsigned(|entries|, 2) + EncodeTableEntries(entries)
  }
}

/** Properties of the Protocol16 decoder: null and unknown tags, primitive widths,
    the container layouts, dictionary semantics, the constant offsets of the
    parameter table, and the round trip against the reference encoder. */
module Protocol16Properties {
  import opened Bytes
  import opened Results
  import opened Cursor
  import opened CursorProperties
  import opened Maps
  import opened Protocol16
  import opened Protocol16Encoding
  import T = Protocol16Types

  // ---------------------------------------------------------------------------
  // Tags

  /** Tags 0 and 42 stand for null and read nothing. */
  lemma InlineSentinelDecodesToNull(data: seq<byte>, pos: nat, c: int)
    requires T.IsInlineSentinel(c)
    ensures DecodeValue(data, pos, c) == Read(Ok(Null), pos)
  {
  }

  /** deserialize throws "unrecognised type" exactly for the codes outside the enum,
      and does so before reading anything. */
  lemma UnknownTagIff(data: seq<byte>, pos: nat, c: int)
    ensures DecodeValue(data, pos, c).result == Err(UnknownTypeCode(c)) <==> T.FromCode(c).None?
    ensures T.FromCode(c).None? ==> DecodeValue(data, pos, c).pos == pos
  {
  }

  /** The number of bytes a primitive tag reads; 0 for the other tags. */
  function PrimitiveWidth(c: int): nat
  {
    if c == T.ByteCode || c == T.BooleanCode then 1
    else if c == T.ShortCode then 2
    else if c == T.IntegerCode || c == T.FloatCode then 4
    else if c == T.LongCode || c == T.DoubleCode then 8
    else 0
  }

  /** A primitive reads exactly its width: it succeeds iff the bytes are there,
      and a failure is a RangeError that leaves the cursor alone. */
  lemma PrimitiveWidths(data: seq<byte>, pos: nat, c: int)
    requires PrimitiveWidth(c) > 0
    ensures DecodeValue(data, pos, c).result.Ok? <==> pos + PrimitiveWidth(c) <= |data|
    ensures DecodeValue(data, pos, c).result.Ok? ==> DecodeValue(data, pos, c).pos == pos + PrimitiveWidth(c)
    ensures DecodeValue(data, pos, c).result.Err? ==>
              DecodeValue(data, pos, c) == Read(Err(RangeError), pos)
  {
    if c == T.ByteCode {
    } else if c == T.BooleanCode {
    } else if c == T.ShortCode {
    } else if c == T.IntegerCode {
    } else if c == T.FloatCode {
    } else if c == T.LongCode {
    } else {
      assert c == T.DoubleCode;
    }
  }

  /** A Boolean is true iff its byte is nonzero. */
  lemma BooleanIsNonZero(data: seq<byte>, pos: nat)
    requires pos < |data|
    ensures DecodeValue(data, pos, T.BooleanCode) == Read(Ok(Boolean(data[pos] != 0)), pos + 1)
  {
    UnsignedOfOneByte(data[pos]);
    assert data[pos .. pos + 1] == [data[pos]];
  }

  /** Short is unsigned, Integer and Long are two's complement. */
  lemma NumericSignedness(data: seq<byte>, pos: nat)
    requires pos + 8 <= |data|
    ensures DecodeValue(data, pos, T.ShortCode) == Read(Ok(Short(Unsigned(data[pos .. pos + 2]))), pos + 2)
    ensures DecodeValue(data, pos, T.IntegerCode) == Read(Ok(Integer(Signed(data[pos .. pos + 4]))), pos + 4)
    ensures DecodeValue(data, pos, T.LongCode) == Read(Ok(Long(Signed(data[pos .. pos + 8]))), pos + 8)
  {
  }

  // ---------------------------------------------------------------------------
  // Containers

  /** The count of an IntegerArray is signed: a count with its top bit set (however
      large as unsigned) gives an empty array after the 4 count bytes. */
  lemma IntegerArrayNegativeCount(data: seq<byte>, pos: nat)
    requires pos + 4 <= |data| && data[pos] >= 128
    ensures DecodeIntegerArray(data, pos) == Read(Ok([]), pos + 4)
  {
    var s := data[pos .. pos + 4];
    assert s[0] == data[pos];
    SignedNegativeWhenTopBitSet(s);
  }

  /** A String of length 0 reads only its two length bytes. */
  lemma EmptyString(data: seq<byte>, pos: nat)
    requires pos + 2 <= |data| && data[pos] == 0 && data[pos + 1] == 0
    ensures DecodeString(data, pos) == Read(Ok([]), pos + 2)
  {
    assert data[pos .. pos + 2] == EncodeUnsigned(0, 2);
  }

  // ---------------------------------------------------------------------------
  // The round trip

  lemma StringRoundTrip(data: seq<byte>, pos: nat, u: seq<byte>)
    requires |u| < Pow256(2) && Within(data, pos, EncodeString(u))
    ensures DecodeString(data, pos) == Read(Ok(u), pos + |EncodeString(u)|)
  {
    WithinSplit(data, pos, EncodeUnsigned(|u|, 2), u);
    UnsignedAtOfEncoding(data, pos, 2, 0, |u|);
    RegionAtOfBytes(data, pos + 2, u);
  }

  /** Taking the head off a non-empty sequence and appending it to the accumulator. */
  lemma AppendHead<X>(acc: seq<X>, xs: seq<X>)
    requires xs != []
    ensures acc + [xs[0]] + xs[1..] == acc + xs
  {
    assert xs == [xs[0]] + xs[1..];
  }

  lemma {:induction false} IntegersRoundTrip(data: seq<byte>, pos: nat, a: seq<int>, acc: seq<int>)
    requires forall i :: 0 <= i < |a| ==> FitsSigned(a[i], 4)
    requires Within(data, pos, EncodeIntegers(a))
    ensures IntegerElements(data, pos, |a|, acc) == Read(Ok(acc + a), pos + |EncodeIntegers(a)|)
    decreases |a|
  {
    if a == [] {
      assert acc + a == acc;
    } else {
      IntegerElementStep(data, pos, a, acc);
      IntegersRoundTrip(data, pos + 4, a[1..], acc + [a[0]]);
      AppendHead(acc, a);
    }
  }

  /** One step of the IntegerArray loop. */
  lemma IntegerElementStep(data: seq<byte>, pos: nat, a: seq<int>, acc: seq<int>)
    requires a != [] && forall i :: 0 <= i < |a| ==> FitsSigned(a[i], 4)
    requires Within(data, pos, EncodeIntegers(a))
    ensures Within(data, pos + 4, EncodeIntegers(a[1..]))
    ensures |EncodeIntegers(a)| == 4 + |EncodeIntegers(a[1..])|
    ensures IntegerElements(data, pos, |a|, acc) == IntegerElements(data, pos + 4, |a[1..]|, acc + [a[0]])
  {
    WithinSplit(data, pos, EncodeSigned(a[0], 4), EncodeIntegers(a[1..]));
    SignedAtOfEncoding(data, pos, 4, 0, a[0]);
  }

  lemma {:induction false} StringsRoundTrip(data: seq<byte>, pos: nat, ss: seq<seq<byte>>, acc: seq<seq<byte>>)
    requires forall i :: 0 <= i < |ss| ==> |ss[i]| < Pow256(2)
    requires Within(data, pos, EncodeStrings(ss))
    ensures StringElements(data, pos, |ss|, acc) == Read(Ok(acc + ss), pos + |EncodeStrings(ss)|)
    decreases |ss|
  {
    if ss == [] {
      assert acc + ss == acc;
    } else {
      var next := StringElementStep(data, pos, ss, acc);
      StringsRoundTrip(data, next, ss[1..], acc + [ss[0]]);
      AppendHead(acc, ss);
    }
  }

  /** One step of the StringArray loop. */
  lemma StringElementStep(data: seq<byte>, pos: nat, ss: seq<seq<byte>>, acc: seq<seq<byte>>) returns (next: nat)
    requires ss != [] && forall i :: 0 <= i < |ss| ==> |ss[i]| < Pow256(2)
    requires Within(data, pos, EncodeStrings(ss))
    ensures next == pos + |EncodeString(ss[0])|
    ensures Within(data, next, EncodeStrings(ss[1..]))
    ensures next + |EncodeStrings(ss[1..])| == pos + |EncodeStrings(ss)|
    ensures StringElements(data, pos, |ss|, acc) == StringElements(data, next, |ss[1..]|, acc + [ss[0]])
  {
    next := pos + |EncodeString(ss[0])|;
    WithinSplit(data, pos, EncodeString(ss[0]), EncodeStrings(ss[1..]));
    StringRoundTrip(data, pos, ss[0]);
  }

  /** Decoding the encoding of a value under its tag gives the value back and reads
      exactly the encoded bytes. */
  lemma {:induction false} DecodeValueRoundTrip(data: seq<byte>, pos: nat, v: Value)
    requires Encodable(v) && Within(data, pos, EncodeBody(v))
    ensures DecodeValue(data, pos, TagOf(v)) == Read(Ok(v), pos + |EncodeBody(v)|)
    decreases v, 4
  {
    match v
    case Null =>
    case Byte(b) => ByteRoundTrip(data, pos, b);
    case Boolean(f) => BooleanRoundTrip(data, pos, f);
    case Short(n) => ShortRoundTrip(data, pos, n);
    case Integer(i) => IntegerRoundTrip(data, pos, i);
    case Long(l) => LongRoundTrip(data, pos, l);
    case Float(f) => FloatRoundTrip(data, pos, f);
    case Double(d) => DoubleRoundTrip(data, pos, d);
    case String(u) => StringValueRoundTrip(data, pos, u);
    case ByteArray(b) => ByteArrayRoundTrip(data, pos, b);
    case IntegerArray(a) => IntegerArrayRoundTrip(data, pos, a);
    case StringArray(ss) => StringArrayRoundTrip(data, pos, ss);
    case Array(es) => ArrayRoundTrip(data, pos, es);
    case ObjectArray(os) => ObjectArrayRoundTrip(data, pos, os);
    case Dictionary(_) => DictionaryValueRoundTrip(data, pos, v);
    case OperationRequest(_, _) => OperationRequestValueRoundTrip(data, pos, v);
    case OperationResponse(_, _, _, _) => OperationResponseValueRoundTrip(data, pos, v);
  }

  lemma ByteRoundTrip(data: seq<byte>, pos: nat, b: int)
    requires 0 <= b < Pow256(1) && Within(data, pos, EncodeUnsigned(b, 1))
    ensures DecodeValue(data, pos, T.ByteCode) == Read(Ok(Byte(b)), pos + 1)
  {
    UnsignedAtOfEncoding(data, pos, 1, 0, b);
  }

  lemma BooleanRoundTrip(data: seq<byte>, pos: nat, f: bool)
    requires Within(data, pos, [if f then 1 else 0])
    ensures DecodeValue(data, pos, T.BooleanCode) == Read(Ok(Boolean(f)), pos + 1)
  {
    assert data[pos] == (if f then 1 else 0);
    BooleanIsNonZero(data, pos);
  }

  lemma ShortRoundTrip(data: seq<byte>, pos: nat, n: int)
    requires 0 <= n < Pow256(2) && Within(data, pos, EncodeUnsigned(n, 2))
    ensures DecodeValue(data, pos, T.ShortCode) == Read(Ok(Short(n)), pos + 2)
  {
    UnsignedAtOfEncoding(data, pos, 2, 0, n);
  }

  lemma IntegerRoundTrip(data: seq<byte>, pos: nat, i: int)
    requires FitsSigned(i, 4) && Within(data, pos, EncodeSigned(i, 4))
    ensures DecodeValue(data, pos, T.IntegerCode) == Read(Ok(Integer(i)), pos + 4)
  {
    SignedAtOfEncoding(data, pos, 4, 0, i);
  }

  lemma LongRoundTrip(data: seq<byte>, pos: nat, l: int)
    requires FitsSigned(l, 8) && Within(data, pos, EncodeSigned(l, 8))
    ensures DecodeValue(data, pos, T.LongCode) == Read(Ok(Long(l)), pos + 8)
  {
    SignedAtOfEncoding(data, pos, 8, 0, l);
  }

  lemma FloatRoundTrip(data: seq<byte>, pos: nat, f: int)
    requires 0 <= f < Pow256(4) && Within(data, pos, EncodeUnsigned(f, 4))
    ensures DecodeValue(data, pos, T.FloatCode) == Read(Ok(Float(f)), pos + 4)
  {
    UnsignedAtOfEncoding(data, pos, 4, 0, f);
  }

  lemma DoubleRoundTrip(data: seq<byte>, pos: nat, d: int)
    requires 0 <= d < Pow256(8) && Within(data, pos, EncodeUnsigned(d, 8))
    ensures DecodeValue(data, pos, T.DoubleCode) == Read(Ok(Double(d)), pos + 8)
  {
    UnsignedAtOfEncoding(data, pos, 8, 0, d);
  }

  lemma StringValueRoundTrip(data: seq<byte>, pos: nat, u: seq<byte>)
    requires |u| < Pow256(2) && Within(data, pos, EncodeString(u))
    ensures DecodeValue(data, pos, T.StringCode) == Read(Ok(String(u)), pos + |EncodeString(u)|)
  {
    StringRoundTrip(data, pos, u);
  }

  lemma ByteArrayRoundTrip(data: seq<byte>, pos: nat, b: seq<byte>)
    requires |b| < Pow256(4) && Within(data, pos, EncodeUnsigned(|b|, 4) + b)
    ensures DecodeValue(data, pos, T.ByteArrayCode) == Read(Ok(ByteArray(b)), pos + 4 + |b|)
  {
    WithinSplit(data, pos, EncodeUnsigned(|b|, 4), b);
    UnsignedAtOfEncoding(data, pos, 4, 0, |b|);
    RegionAtOfBytes(data, pos + 4, b);
  }

  lemma IntegerArrayRoundTrip(data: seq<byte>, pos: nat, a: seq<int>)
    requires Encodable(IntegerArray(a)) && Within(data, pos, EncodeSigned(|a|, 4) + EncodeIntegers(a))
    ensures DecodeValue(data, pos, T.IntegerArrayCode) == Read(Ok(IntegerArray(a)), pos + 4 + |EncodeIntegers(a)|)
  {
    IntegerArrayPayloadRoundTrip(data, pos, a);
  }

  lemma IntegerArrayPayloadRoundTrip(data: seq<byte>, pos: nat, a: seq<int>)
    requires Encodable(IntegerArray(a)) && Within(data, pos, EncodeSigned(|a|, 4) + EncodeIntegers(a))
    ensures DecodeIntegerArray(data, pos) == Read(Ok(a), pos + 4 + |EncodeIntegers(a)|)
  {
    WithinSplit(data, pos, EncodeSigned(|a|, 4), EncodeIntegers(a));
    SignedAtOfEncoding(data, pos, 4, 0, |a|);
    IntegersRoundTrip(data, pos + 4, a, []);
    assert [] + a == a;
  }

  lemma StringArrayRoundTrip(data: seq<byte>, pos: nat, ss: seq<seq<byte>>)
    requires Encodable(StringArray(ss)) && Within(data, pos, EncodeUnsigned(|ss|, 2) + EncodeStrings(ss))
    ensures DecodeValue(data, pos, T.StringArrayCode) == Read(Ok(StringArray(ss)), pos + 2 + |EncodeStrings(ss)|)
  {
    WithinSplit(data, pos, EncodeUnsigned(|ss|, 2), EncodeStrings(ss));
    UnsignedAtOfEncoding(data, pos, 2, 0, |ss|);
    StringsRoundTrip(data, pos + 2, ss, []);
    assert [] + ss == ss;
  }

  lemma {:induction false} ArrayRoundTrip(data: seq<byte>, pos: nat, es: seq<Value>)
    requires Encodable(Array(es)) && Within(data, pos, EncodeBody(Array(es)))
    ensures DecodeValue(data, pos, T.ArrayCode) == Read(Ok(Array(es)), pos + |EncodeBody(Array(es))|)
    decreases es, 3
  {
    ArrayPayloadRoundTrip(data, pos, es);
  }

  lemma {:induction false} ArrayPayloadRoundTrip(data: seq<byte>, pos: nat, es: seq<Value>)
    requires Encodable(Array(es)) && Within(data, pos, EncodeBody(Array(es)))
    ensures DecodeArray(data, pos) == Read(Ok(Array(es)), pos + |EncodeBody(Array(es))|)
    decreases es, 2
  {
    ArrayHeaderRoundTrip(data, pos, es);
    ArrayElementsRoundTrip(data, pos + 3, ArrayTag(es), es, []);
    assert [] + es == es;
  }

  /** The count and the shared tag in front of an Array's elements. */
  lemma ArrayHeaderRoundTrip(data: seq<byte>, pos: nat, es: seq<Value>)
    requires Encodable(Array(es)) && Within(data, pos, EncodeBody(Array(es)))
    ensures DecodeShort(data, pos) == Read(Ok(|es|), pos + 2)
    ensures DecodeByte(data, pos + 2) == Read(Ok(ArrayTag(es)), pos + 3)
    ensures Within(data, pos + 3, EncodeBodies(es))
    ensures |EncodeBody(Array(es))| == 3 + |EncodeBodies(es)|
  {
    var tag := ArrayTag(es);
    var head := EncodeUnsigned(|es|, 2) + EncodeUnsigned(tag, 1);
    assert EncodeBody(Array(es)) == head + EncodeBodies(es);
    WithinSplit(data, pos, head, EncodeBodies(es));
    WithinSplit(data, pos, EncodeUnsigned(|es|, 2), EncodeUnsigned(tag, 1));
    UnsignedAtOfEncoding(data, pos, 2, 0, |es|);
    UnsignedAtOfEncoding(data, pos + 2, 1, 0, tag);
  }

  lemma {:induction false} ObjectArrayRoundTrip(data: seq<byte>, pos: nat, os: seq<Value>)
    requires Encodable(ObjectArray(os)) && Within(data, pos, EncodeUnsigned(|os|, 2) + EncodeTagged(os))
    ensures DecodeValue(data, pos, T.ObjectArrayCode) == Read(Ok(ObjectArray(os)), pos + 2 + |EncodeTagged(os)|)
    decreases os, 3
  {
    ObjectArrayPayloadRoundTrip(data, pos, os);
  }

  lemma {:induction false} ObjectArrayPayloadRoundTrip(data: seq<byte>, pos: nat, os: seq<Value>)
    requires Encodable(ObjectArray(os)) && Within(data, pos, EncodeUnsigned(|os|, 2) + EncodeTagged(os))
    ensures DecodeObjectArray(data, pos) == Read(Ok(ObjectArray(os)), pos + 2 + |EncodeTagged(os)|)
    decreases os, 2
  {
    WithinSplit(data, pos, EncodeUnsigned(|os|, 2), EncodeTagged(os));
    UnsignedAtOfEncoding(data, pos, 2, 0, |os|);
    ObjectElementsRoundTrip(data, pos + 2, os, []);
    assert [] + os == os;
  }

  lemma {:induction false} ArrayElementsRoundTrip(data: seq<byte>, pos: nat, typeCode: int, es: seq<Value>, acc: seq<Value>)
    requires forall i | 0 <= i < |es| :: Encodable(es[i]) && TagOf(es[i]) == typeCode
    requires Within(data, pos, EncodeBodies(es))
    ensures ArrayElements(data, pos, typeCode, |es|, acc) == Read(Ok(acc + es), pos + |EncodeBodies(es)|)
    decreases es, 1
  {
    if es == [] {
      assert acc + es == acc;
    } else {
      var next := ArrayElementStep(data, pos, typeCode, es, acc);
      ArrayElementsRoundTrip(data, next, typeCode, es[1..], acc + [es[0]]);
      AppendHead(acc, es);
    }
  }

  /** One step of the Array loop: the first body decodes with the shared tag. */
  lemma ArrayElementStep(data: seq<byte>, pos: nat, typeCode: int, es: seq<Value>, acc: seq<Value>) returns (next: nat)
    requires es != [] && forall i | 0 <= i < |es| :: Encodable(es[i]) && TagOf(es[i]) == typeCode
    requires Within(data, pos, EncodeBodies(es))
    ensures Within(data, next, EncodeBodies(es[1..]))
    ensures next + |EncodeBodies(es[1..])| == pos + |EncodeBodies(es)|
    ensures ArrayElements(data, pos, typeCode, |es|, acc) == ArrayElements(data, next, typeCode, |es[1..]|, acc + [es[0]])
    decreases es, 0
  {
    next := ArrayElementsAdvance(data, pos, es);
    DecodeValueRoundTrip(data, pos, es[0]);
    ArrayElementsUnfold(data, pos, typeCode, |es|, |es[1..]|, acc, es[0], next);
  }

  /** Where the first body of EncodeBodies ends and the rest of the list starts. */
  lemma ArrayElementsAdvance(data: seq<byte>, pos: nat, es: seq<Value>) returns (next: nat)
    requires es != [] && (forall i | 0 <= i < |es| :: Encodable(es[i])) && Within(data, pos, EncodeBodies(es))
    ensures Encodable(es[0]) && Within(data, pos, EncodeBody(es[0])) && next == pos + |EncodeBody(es[0])|
    ensures Within(data, next, EncodeBodies(es[1..]))
    ensures next + |EncodeBodies(es[1..])| == pos + |EncodeBodies(es)|
  {
    WithinSplit(data, pos, EncodeBody(es[0]), EncodeBodies(es[1..]));
    next := pos + |EncodeBody(es[0])|;
  }

  /** One turn of the Array loop, once the element it reads is known. */
  lemma ArrayElementsUnfold(data: seq<byte>, pos: nat, typeCode: int, count: int, rest: int, acc: seq<Value>, e: Value, next: nat)
    requires count > 0 && rest == count - 1 && ArrayElement(data, pos, typeCode) == Read(Ok(e), next)
    ensures ArrayElements(data, pos, typeCode, count, acc) == ArrayElements(data, next, typeCode, rest, acc + [e])
  {
  }

  lemma {:induction false} ObjectElementsRoundTrip(data: seq<byte>, pos: nat, os: seq<Value>, acc: seq<Value>)
    requires forall i | 0 <= i < |os| :: Encodable(os[i])
    requires Within(data, pos, EncodeTagged(os))
    ensures ObjectArrayElements(data, pos, |os|, acc) == Read(Ok(acc + os), pos + |EncodeTagged(os)|)
    decreases os, 1
  {
    if os == [] {
      assert acc + os == acc;
    } else {
      var next := ObjectElementStep(data, pos, os, acc);
      ObjectElementsRoundTrip(data, next, os[1..], acc + [os[0]]);
      AppendHead(acc, os);
    }
  }

  /** The first turn of the ObjectArray loop, with the position of the rest of the list. */
  lemma ObjectElementStep(data: seq<byte>, pos: nat, os: seq<Value>, acc: seq<Value>) returns (next: nat)
    requires os != [] && (forall i | 0 <= i < |os| :: Encodable(os[i])) && Within(data, pos, EncodeTagged(os))
    ensures Within(data, next, EncodeTagged(os[1..]))
    ensures next + |EncodeTagged(os[1..])| == pos + |EncodeTagged(os)|
    ensures ObjectArrayElements(data, pos, |os|, acc) == ObjectArrayElements(data, next, |os[1..]|, acc + [os[0]])
    decreases os, 0
  {
    next := ObjectElementsAdvance(data, pos, os);
    ObjectElementRoundTrip(data, pos, os[0], EncodeTagged(os[1..]));
    ObjectArrayElementsUnfold(data, pos, |os|, |os[1..]|, acc, os[0], next);
  }

  /** Where the first element of EncodeTagged ends and the rest of the list starts. */
  lemma ObjectElementsAdvance(data: seq<byte>, pos: nat, os: seq<Value>) returns (next: nat)
    requires os != [] && (forall i | 0 <= i < |os| :: Encodable(os[i])) && Within(data, pos, EncodeTagged(os))
    ensures Encodable(os[0]) && Within(data, pos, EncodeUnsigned(TagOf(os[0]), 1) + EncodeBody(os[0]) + EncodeTagged(os[1..]))
    ensures next == pos + 1 + |EncodeBody(os[0])| && next + |EncodeTagged(os[1..])| == pos + |EncodeTagged(os)|
  {
    next := pos + 1 + |EncodeBody(os[0])|;
  }

  /** One turn of the ObjectArray loop, once the element it reads is known. */
  lemma ObjectArrayElementsUnfold(data: seq<byte>, pos: nat, count: int, rest: int, acc: seq<Value>, o: Value, next: nat)
    requires count > 0 && rest == count - 1 && TaggedValue(data, pos) == Read(Ok(o), next)
    ensures ObjectArrayElements(data, pos, count, acc) == ObjectArrayElements(data, next, rest, acc + [o])
  {
  }

  /** An element of an ObjectArray decodes from its tag and body. */
  lemma ObjectElementRoundTrip(data: seq<byte>, pos: nat, o: Value, rest: seq<byte>)
    requires Encodable(o) && Within(data, pos, EncodeUnsigned(TagOf(o), 1) + EncodeBody(o) + rest)
    ensures TaggedValue(data, pos) == Read(Ok(o), pos + 1 + |EncodeBody(o)|)
    ensures Within(data, pos + 1 + |EncodeBody(o)|, rest)
    decreases o, 5
  {
    TaggedHead(data, pos, o, rest);
    DecodeValueRoundTrip(data, pos + 1, o);
  }

  /** The first element of an ObjectArray's encoding: its tag byte, then its body. */
  lemma TaggedHead(data: seq<byte>, pos: nat, o: Value, rest: seq<byte>)
    requires Encodable(o) && Within(data, pos, EncodeUnsigned(TagOf(o), 1) + EncodeBody(o) + rest)
    ensures DecodeByte(data, pos) == Read(Ok(TagOf(o)), pos + 1)
    ensures Within(data, pos + 1, EncodeBody(o))
    ensures Within(data, pos + 1 + |EncodeBody(o)|, rest)
  {
    var tag := EncodeUnsigned(TagOf(o), 1);
    WithinSplit(data, pos, tag + EncodeBody(o), rest);
    WithinSplit(data, pos, tag, EncodeBody(o));
    UnsignedAtOfEncoding(data, pos, 1, 0, TagOf(o));
  }

  /** A slot holding x: the slot tag is x's own, read inline behind a sentinel, and the
      body after it decodes to x. */
  lemma SlotRoundTrip(data: seq<byte>, pos: nat, declared: int, x: Value)
    requires SlotFits(declared, x) && Within(data, pos, EncodeSlot(declared, x))
    ensures SlotValue(data, pos, declared) == Read(Ok(x), pos + |EncodeSlot(declared, x)|)
    decreases x, 5
  {
    var bodyAt := SlotSplit(data, pos, declared, x);
    DecodeValueRoundTrip(data, bodyAt, x);
    SlotValueOfParts(data, pos, declared, TagOf(x), bodyAt, Read(Ok(x), pos + |EncodeSlot(declared, x)|));
  }

  /** Where the body of a slot starts, and the tag the slot reads. */
  lemma SlotSplit(data: seq<byte>, pos: nat, declared: int, x: Value) returns (bodyAt: nat)
    requires SlotFits(declared, x) && Within(data, pos, EncodeSlot(declared, x))
    ensures Encodable(x) && SlotTypeCode(data, pos, declared) == Read(Ok(TagOf(x)), bodyAt)
    ensures Within(data, bodyAt, EncodeBody(x)) && bodyAt + |EncodeBody(x)| == pos + |EncodeSlot(declared, x)|
  {
    bodyAt := SlotBytes(data, pos, declared, TagOf(x), EncodeBody(x));
  }

  /** The same on bytes alone: a slot is an optional tag byte, then a body. */
  lemma SlotBytes(data: seq<byte>, pos: nat, declared: int, tag: int, body: seq<byte>) returns (bodyAt: nat)
    requires 0 <= tag < Pow256(1) && (T.IsInlineSentinel(declared) || declared == tag)
    requires Within(data, pos, (if T.IsInlineSentinel(declared) then EncodeUnsigned(tag, 1) else []) + body)
    ensures SlotTypeCode(data, pos, declared) == Read(Ok(tag), bodyAt)
    ensures Within(data, bodyAt, body)
    ensures bodyAt + |body| == pos + |(if T.IsInlineSentinel(declared) then EncodeUnsigned(tag, 1) else []) + body|
  {
    if T.IsInlineSentinel(declared) {
      WithinSplit(data, pos, EncodeUnsigned(tag, 1), body);
      UnsignedAtOfEncoding(data, pos, 1, 0, tag);
      bodyAt := pos + 1;
    } else {
      assert [] + body == body;
      bodyAt := pos;
    }
  }

  /** A slot reads its tag, then the value decoded with it. */
  lemma SlotValueOfParts(data: seq<byte>, pos: nat, declared: int, typeCode: int, bodyAt: nat, r: Read<Value>)
    requires SlotTypeCode(data, pos, declared) == Read(Ok(typeCode), bodyAt) && DecodeValue(data, bodyAt, typeCode) == r
    ensures SlotValue(data, pos, declared) == r
  {
  }

  lemma DictionaryValueRoundTrip(data: seq<byte>, pos: nat, v: Value)
    requires v.Dictionary? && Encodable(v) && Within(data, pos, EncodeBody(v))
    ensures DecodeValue(data, pos, T.DictionaryCode) == Read(Ok(v), pos + |EncodeBody(v)|)
    decreases v, 3
  {
    DictionaryPayloadRoundTrip(data, pos, v);
  }

  /** A Dictionary value reads back from its two zero slot tags, its count and its
      entries in the chosen order. */
  lemma DictionaryPayloadRoundTrip(data: seq<byte>, pos: nat, v: Value)
    requires v.Dictionary? && KeyedEncodable(v) && Within(data, pos, EncodeKeyedBody(v))
    ensures DecodeDictionary(data, pos) == Read(Ok(v), pos + |EncodeKeyedBody(v)|)
    decreases v, 2
  {
    var ks := Enumeration(v.entries.Keys);
    DictionarySplit(data, pos, v);
    DictionaryKeysFit(v);
    MapEntriesRoundTrip(data, pos + 4, v, ks, map[]);
    DictionaryOfParts(data, pos, T.UnknownCode, T.UnknownCode, |ks|, v.entries, pos + |EncodeKeyedBody(v)|);
  }

  /** How deserializeDictionary assembles its parts when both declared tags are 0. */
  lemma DictionaryOfParts(data: seq<byte>, pos: nat, keyTypeCode: int, valueTypeCode: int, count: int,
                          m: map<Value, Value>, next: nat)
    requires DecodeByte(data, pos) == Read(Ok(keyTypeCode), pos + 1)
    requires DecodeByte(data, pos + 1) == Read(Ok(valueTypeCode), pos + 2)
    requires DecodeShort(data, pos + 2) == Read(Ok(count), pos + 4)
    requires DictionaryElements(data, pos + 4, count, keyTypeCode, valueTypeCode, map[]) == Read(Ok(m), next)
    ensures DecodeDictionary(data, pos) == Read(Ok(Dictionary(m)), next)
  {
  }

  /** The head of a Dictionary value's encoding: two zero slot tags and the count. */
  lemma DictionarySplit(data: seq<byte>, pos: nat, v: Value)
    requires v.Dictionary? && KeyedEncodable(v) && Within(data, pos, EncodeKeyedBody(v))
    ensures var ks := Enumeration(v.entries.Keys);
            && DecodeByte(data, pos) == Read(Ok(T.UnknownCode), pos + 1)
            && DecodeByte(data, pos + 1) == Read(Ok(T.UnknownCode), pos + 2)
            && DecodeShort(data, pos + 2) == Read(Ok(|ks|), pos + 4)
            && Within(data, pos + 4, EncodeMapEntries(v, ks))
            && |EncodeKeyedBody(v)| == 4 + |EncodeMapEntries(v, ks)|
  {
    var ks := Enumeration(v.entries.Keys);
    DictionaryHead(data, pos, T.UnknownCode, T.UnknownCode, |ks|, EncodeMapEntries(v, ks));
  }

  /** The head every Dictionary body starts with: key tag, value tag, uint16 count. */
  lemma DictionaryHead(data: seq<byte>, pos: nat, keyTypeCode: nat, valueTypeCode: nat, count: nat, rest: seq<byte>)
    requires keyTypeCode < Pow256(1) && valueTypeCode < Pow256(1) && count < Pow256(2)
    requires Within(data, pos, EncodeUnsigned(keyTypeCode, 1) + EncodeUnsigned(valueTypeCode, 1) + EncodeUnsigned(count, 2) + rest)
    ensures DecodeByte(data, pos) == Read(Ok(keyTypeCode), pos + 1)
    ensures DecodeByte(data, pos + 1) == Read(Ok(valueTypeCode), pos + 2)
    ensures DecodeShort(data, pos + 2) == Read(Ok(count), pos + 4)
    ensures Within(data, pos + 4, rest)
    ensures |EncodeUnsigned(keyTypeCode, 1) + EncodeUnsigned(valueTypeCode, 1) + EncodeUnsigned(count, 2) + rest| == 4 + |rest|
  {
    WithinSplit4(data, pos, EncodeUnsigned(keyTypeCode, 1), EncodeUnsigned(valueTypeCode, 1), EncodeUnsigned(count, 2), rest);
    UnsignedAtOfEncoding(data, pos, 1, 0, keyTypeCode);
    UnsignedAtOfEncoding(data, pos + 1, 1, 0, valueTypeCode);
    UnsignedAtOfEncoding(data, pos + 2, 2, 0, count);
  }

  /** What the entries of a Dictionary value need: its keys are listed, and every key
      and value is encodable. */
  lemma DictionaryKeysFit(v: Value)
    requires v.Dictionary? && KeyedEncodable(v)
    ensures forall k | k in Enumeration(v.entries.Keys) :: k in v.entries
    ensures forall k | k in v.entries :: Encodable(k) && Encodable(v.entries[k])
    ensures Upserted(map[], EntriesAt(v.entries, Enumeration(v.entries.Keys))) == v.entries
  {
    EnumeratedEntries(v.entries);
  }

  lemma {:induction false} MapEntriesRoundTrip(data: seq<byte>, pos: nat, v: Value, ks: seq<Value>, acc: map<Value, Value>)
    requires v.Dictionary?
    requires (forall k | k in ks :: k in v.entries) && forall k | k in v.entries :: Encodable(k) && Encodable(v.entries[k])
    requires Within(data, pos, EncodeMapEntries(v, ks))
    ensures DictionaryElements(data, pos, |ks|, T.UnknownCode, T.UnknownCode, acc)
         == Read(Ok(Upserted(acc, EntriesAt(v.entries, ks))), pos + |EncodeMapEntries(v, ks)|)
    decreases v, 1, |ks|
  {
    if ks != [] {
      var next := MapEntryStep(data, pos, v, ks, acc);
      UpsertedEntriesAtHead(acc, v.entries, ks);
      MapEntriesRoundTrip(data, next, v, ks[1..], acc[ks[0] := v.entries[ks[0]]]);
    } else {
      MapEntriesNone(data, pos, v, ks, acc);
    }
  }

  /** The first turn of the dictionary loop, with the position of the rest of the list. */
  lemma MapEntryStep(data: seq<byte>, pos: nat, v: Value, ks: seq<Value>, acc: map<Value, Value>) returns (next: nat)
    requires v.Dictionary? && ks != []
    requires (forall k | k in ks :: k in v.entries) && forall k | k in v.entries :: Encodable(k) && Encodable(v.entries[k])
    requires Within(data, pos, EncodeMapEntries(v, ks))
    ensures Within(data, next, EncodeMapEntries(v, ks[1..]))
    ensures next + |EncodeMapEntries(v, ks[1..])| == pos + |EncodeMapEntries(v, ks)|
    ensures DictionaryElements(data, pos, |ks|, T.UnknownCode, T.UnknownCode, acc)
         == DictionaryElements(data, next, |ks[1..]|, T.UnknownCode, T.UnknownCode, acc[ks[0] := v.entries[ks[0]]])
    decreases v, 0, 1
  {
    var k, x := ks[0], v.entries[ks[0]];
    next := MapEntriesAdvance(data, pos, v, ks);
    MapEntryHead(data, pos, v, k);
    DictionaryElementsUnfold(data, pos, |ks|, |ks[1..]|, T.UnknownCode, T.UnknownCode, acc, k, x, next);
  }

  /** Where the first entry of EncodeMapEntries ends and the rest of the list starts. */
  lemma MapEntriesAdvance(data: seq<byte>, pos: nat, v: Value, ks: seq<Value>) returns (next: nat)
    requires v.Dictionary? && ks != []
    requires (forall k | k in ks :: k in v.entries) && forall k | k in v.entries :: Encodable(k) && Encodable(v.entries[k])
    requires Within(data, pos, EncodeMapEntries(v, ks))
    ensures ks[0] in v.entries && Encodable(ks[0]) && Encodable(v.entries[ks[0]])
    ensures var pair := EncodeSlot(T.UnknownCode, ks[0]) + EncodeSlot(T.UnknownCode, v.entries[ks[0]]);
            Within(data, pos, pair) && next == pos + |pair|
    ensures Within(data, next, EncodeMapEntries(v, ks[1..]))
    ensures next + |EncodeMapEntries(v, ks[1..])| == pos + |EncodeMapEntries(v, ks)|
  {
    var pair := EncodeSlot(T.UnknownCode, ks[0]) + EncodeSlot(T.UnknownCode, v.entries[ks[0]]);
    MapEntriesHeadFits(v, ks);
    WithinSplit(data, pos, pair, EncodeMapEntries(v, ks[1..]));
    next := pos + |pair|;
  }

  /** One entry of a Dictionary value, key slot then value slot, reads back as itself. */
  lemma MapEntryHead(data: seq<byte>, pos: nat, v: Value, k: Value)
    requires v.Dictionary? && k in v.entries && Encodable(k) && Encodable(v.entries[k])
    requires Within(data, pos, EncodeSlot(T.UnknownCode, k) + EncodeSlot(T.UnknownCode, v.entries[k]))
    ensures DictionaryEntry(data, pos, T.UnknownCode, T.UnknownCode)
         == Read(Ok((k, v.entries[k])), pos + |EncodeSlot(T.UnknownCode, k) + EncodeSlot(T.UnknownCode, v.entries[k])|)
    decreases v, 0, 0
  {
    var x := v.entries[k];
    var mid := pos + |EncodeSlot(T.UnknownCode, k)|;
    WithinSplit(data, pos, EncodeSlot(T.UnknownCode, k), EncodeSlot(T.UnknownCode, x));
    SlotRoundTrip(data, pos, T.UnknownCode, k);
    SlotRoundTrip(data, mid, T.UnknownCode, x);
    DictionaryEntryOfSlots(data, pos, T.UnknownCode, T.UnknownCode, k, x, mid, mid + |EncodeSlot(T.UnknownCode, x)|);
  }

  /** No keys left: the loop stops where it is, with what it has stored. */
  lemma MapEntriesNone(data: seq<byte>, pos: nat, v: Value, ks: seq<Value>, acc: map<Value, Value>)
    requires v.Dictionary? && ks == []
    requires forall k | k in v.entries :: Encodable(k) && Encodable(v.entries[k])
    ensures DictionaryElements(data, pos, |ks|, T.UnknownCode, T.UnknownCode, acc)
         == Read(Ok(Upserted(acc, EntriesAt(v.entries, ks))), pos + |EncodeMapEntries(v, ks)|)
  {
  }

  /** The first key and value listed fit a slot, and so does the rest of the list. */
  lemma MapEntriesHeadFits(v: Value, ks: seq<Value>)
    requires v.Dictionary? && ks != []
    requires (forall k | k in ks :: k in v.entries) && forall k | k in v.entries :: Encodable(k) && Encodable(v.entries[k])
    ensures SlotFits(T.UnknownCode, ks[0]) && SlotFits(T.UnknownCode, v.entries[ks[0]])
    ensures EncodeMapEntries(v, ks)
         == EncodeSlot(T.UnknownCode, ks[0]) + EncodeSlot(T.UnknownCode, v.entries[ks[0]]) + EncodeMapEntries(v, ks[1..])
  {
    assert ks[0] in ks;
  }

  /** The parameter table of an operation value reads back as its parameters. */
  lemma TableOfRoundTrip(data: seq<byte>, pos: nat, v: Value)
    requires (v.OperationRequest? || v.OperationResponse?) && KeyedEncodable(v) && Within(data, pos, EncodeTableOf(v))
    ensures DecodeParameterTable(data, pos) == Read(Ok(v.parameters), pos + |EncodeTableOf(v)|)
    decreases v, 1
  {
    var ks := Enumeration(v.parameters.Keys);
    TableHead(data, pos, |ks|, EncodeParameterEntries(v, ks));
    TableKeysFit(v);
    ParameterEntriesRoundTrip(data, pos + 3, v, ks, map[]);
    ParameterTableOfParts(data, pos, |ks|, Read(Ok(v.parameters), pos + |EncodeTableOf(v)|));
  }

  /** The head of a parameter table: a skipped byte, then the uint16 count. */
  lemma TableHead(data: seq<byte>, pos: nat, count: nat, rest: seq<byte>)
    requires count < Pow256(2) && Within(data, pos, [0] + EncodeUnsigned(count, 2) + rest)
    ensures UnsignedAt(data, pos, 2, 1) == Read(Ok(count), pos + 3)
    ensures Within(data, pos + 3, rest) && |[0] + EncodeUnsigned(count, 2) + rest| == 3 + |rest|
  {
    WithinSplit3(data, pos, [0], EncodeUnsigned(count, 2), rest);
    UnsignedAtOfEncoding(data, pos, 2, 1, count);
  }

  /** What the entries of an operation value's table need. */
  lemma TableKeysFit(v: Value)
    requires (v.OperationRequest? || v.OperationResponse?) && KeyedEncodable(v)
    ensures forall k | k in Enumeration(v.parameters.Keys) :: k in v.parameters
    ensures forall k | k in v.parameters :: 0 <= k < Pow256(1) && Encodable(v.parameters[k])
    ensures Upserted(map[], EntriesAt(v.parameters, Enumeration(v.parameters.Keys))) == v.parameters
  {
    EnumeratedEntries(v.parameters);
  }

  /** deserializeParameterTable reads its count, then that many entries. */
  lemma ParameterTableOfParts(data: seq<byte>, pos: nat, count: int, r: Read<map<int, Value>>)
    requires UnsignedAt(data, pos, 2, 1) == Read(Ok(count), pos + 3)
    requires ParameterTableEntries(data, pos + 3, count, map[]) == r
    ensures DecodeParameterTable(data, pos) == r
  {
  }

  lemma {:induction false} ParameterEntriesRoundTrip(data: seq<byte>, pos: nat, v: Value, ks: seq<int>, acc: map<int, Value>)
    requires v.OperationRequest? || v.OperationResponse?
    requires (forall k | k in ks :: k in v.parameters)
    requires forall k | k in v.parameters :: 0 <= k < Pow256(1) && Encodable(v.parameters[k])
    requires Within(data, pos, EncodeParameterEntries(v, ks))
    ensures ParameterTableEntries(data, pos, |ks|, acc)
         == Read(Ok(Upserted(acc, EntriesAt(v.parameters, ks))), pos + |EncodeParameterEntries(v, ks)|)
    decreases v, 0, |ks|
  {
    if ks != [] {
      var next := ParameterEntryStep(data, pos, v, ks, acc);
      UpsertedEntriesAtHead(acc, v.parameters, ks);
      ParameterEntriesRoundTrip(data, next, v, ks[1..], acc[ks[0] := v.parameters[ks[0]]]);
    }
  }

  /** The first turn of the parameter-table loop, with the position of the rest of the list. */
  lemma ParameterEntryStep(data: seq<byte>, pos: nat, v: Value, ks: seq<int>, acc: map<int, Value>) returns (next: nat)
    requires (v.OperationRequest? || v.OperationResponse?) && ks != []
    requires (forall k | k in ks :: k in v.parameters)
    requires forall k | k in v.parameters :: 0 <= k < Pow256(1) && Encodable(v.parameters[k])
    requires Within(data, pos, EncodeParameterEntries(v, ks))
    ensures Within(data, next, EncodeParameterEntries(v, ks[1..]))
    ensures next + |EncodeParameterEntries(v, ks[1..])| == pos + |EncodeParameterEntries(v, ks)|
    ensures ParameterTableEntries(data, pos, |ks|, acc)
         == ParameterTableEntries(data, next, |ks[1..]|, acc[ks[0] := v.parameters[ks[0]]])
    decreases v, 0, 0
  {
    var k, x := ks[0], v.parameters[ks[0]];
    next := ParameterEntriesAdvance(data, pos, v, ks);
    TableEntryRoundTrip(data, pos, k, x);
    ParameterTableEntriesUnfold(data, pos, |ks|, |ks[1..]|, acc, k, x, next);
  }

  /** Where the first entry of EncodeParameterEntries ends and the rest of the list starts. */
  lemma ParameterEntriesAdvance(data: seq<byte>, pos: nat, v: Value, ks: seq<int>) returns (next: nat)
    requires (v.OperationRequest? || v.OperationResponse?) && ks != []
    requires (forall k | k in ks :: k in v.parameters)
    requires forall k | k in v.parameters :: 0 <= k < Pow256(1) && Encodable(v.parameters[k])
    requires Within(data, pos, EncodeParameterEntries(v, ks))
    ensures var k, x := ks[0], v.parameters[ks[0]];
            && 0 <= k < Pow256(1) && Encodable(x) && Within(data, pos, EncodeTableEntry(k, x))
            && next == pos + |EncodeTableEntry(k, x)|
    ensures Within(data, next, EncodeParameterEntries(v, ks[1..]))
    ensures next + |EncodeParameterEntries(v, ks[1..])| == pos + |EncodeParameterEntries(v, ks)|
  {
    var k, x := ks[0], v.parameters[ks[0]];
    WithinSplit(data, pos, EncodeTableEntry(k, x), EncodeParameterEntries(v, ks[1..]));
    next := pos + |EncodeTableEntry(k, x)|;
  }

  /** One written parameter-table entry reads back as its id and value. */
  lemma TableEntryRoundTrip(data: seq<byte>, pos: nat, k: int, x: Value)
    requires 0 <= k < Pow256(1) && Encodable(x) && Within(data, pos, EncodeTableEntry(k, x))
    ensures ParameterEntry(data, pos, 3) == Read(Ok((k, x)), pos + |EncodeTableEntry(k, x)|)
    decreases x, 6
  {
    WithinSplit(data, pos, [0, 0, 0, k as byte, 0, 0, 0, 0, TagOf(x) as byte], EncodeBody(x));
    SingleParameterEntry(data, pos, k as byte, x);
  }

  lemma OperationRequestValueRoundTrip(data: seq<byte>, pos: nat, v: Value)
    requires v.OperationRequest? && Encodable(v) && Within(data, pos, EncodeBody(v))
    ensures DecodeValue(data, pos, T.OperationRequestCode) == Read(Ok(v), pos + |EncodeBody(v)|)
    decreases v, 3
  {
    OperationRequestPayloadRoundTrip(data, pos, v);
  }

  /** An OperationRequest value reads back from its code byte and its table. */
  lemma OperationRequestPayloadRoundTrip(data: seq<byte>, pos: nat, v: Value)
    requires v.OperationRequest? && KeyedEncodable(v) && Within(data, pos, EncodeKeyedBody(v))
    ensures DecodeOperationRequest(data, pos) == Read(Ok(v), pos + |EncodeKeyedBody(v)|)
    decreases v, 2
  {
    WithinSplit(data, pos, EncodeUnsigned(v.operationCode, 1), EncodeTableOf(v));
    UnsignedAtOfEncoding(data, pos, 1, 0, v.operationCode);
    TableOfRoundTrip(data, pos + 1, v);
  }

  lemma OperationResponseValueRoundTrip(data: seq<byte>, pos: nat, v: Value)
    requires v.OperationResponse? && Encodable(v) && Within(data, pos, EncodeBody(v))
    ensures DecodeValue(data, pos, T.OperationResponseCode) == Read(Ok(v), pos + |EncodeBody(v)|)
    decreases v, 3
  {
    OperationResponsePayloadRoundTrip(data, pos, v);
  }

  /** An OperationResponse value reads back from its code byte, its return code, its
      tagged debug message and its table. */
  lemma OperationResponsePayloadRoundTrip(data: seq<byte>, pos: nat, v: Value)
    requires v.OperationResponse? && KeyedEncodable(v) && Within(data, pos, EncodeKeyedBody(v))
    ensures DecodeOperationResponse(data, pos) == Read(Ok(v), pos + |EncodeKeyedBody(v)|)
    decreases v, 2
  {
    var d := v.debugMessage;
    OperationResponseSplit(data, pos, v);
    ObjectElementRoundTrip(data, pos + 3, d, EncodeTableOf(v));
    TableOfRoundTrip(data, pos + 4 + |EncodeBody(d)|, v);
    OperationResponseOfParts(data, pos, v.operationCode, v.returnCode, d, v.parameters,
                             pos + 4 + |EncodeBody(d)|, pos + |EncodeKeyedBody(v)|);
  }

  /** The head of an OperationResponse value's encoding, up to its debug message. */
  lemma OperationResponseSplit(data: seq<byte>, pos: nat, v: Value)
    requires v.OperationResponse? && KeyedEncodable(v) && Within(data, pos, EncodeKeyedBody(v))
    ensures var d := v.debugMessage;
            && DecodeByte(data, pos) == Read(Ok(v.operationCode), pos + 1)
            && DecodeShort(data, pos + 1) == Read(Ok(v.returnCode), pos + 3)
            && Encodable(d) && Within(data, pos + 3, EncodeUnsigned(TagOf(d), 1) + EncodeBody(d) + EncodeTableOf(v))
            && |EncodeKeyedBody(v)| == 4 + |EncodeBody(d)| + |EncodeTableOf(v)|
  {
    var d := v.debugMessage;
    var head := EncodeUnsigned(v.operationCode, 1) + EncodeUnsigned(v.returnCode, 2);
    WithinSplit(data, pos, head, EncodeUnsigned(TagOf(d), 1) + EncodeBody(d) + EncodeTableOf(v));
    WithinSplit(data, pos, EncodeUnsigned(v.operationCode, 1), EncodeUnsigned(v.returnCode, 2));
    UnsignedAtOfEncoding(data, pos, 1, 0, v.operationCode);
    UnsignedAtOfEncoding(data, pos + 1, 2, 0, v.returnCode);
  }

  /** One turn of the dictionary loop, once the entry it reads is known. */
  lemma DictionaryElementsUnfold(data: seq<byte>, pos: nat, count: int, rest: int, keyTypeCode: int, valueTypeCode: int,
                                 acc: map<Value, Value>, k: Value, x: Value, next: nat)
    requires count > 0 && rest == count - 1
    requires DictionaryEntry(data, pos, keyTypeCode, valueTypeCode) == Read(Ok((k, x)), next)
    ensures DictionaryElements(data, pos, count, keyTypeCode, valueTypeCode, acc)
         == DictionaryElements(data, next, rest, keyTypeCode, valueTypeCode, acc[k := x])
  {
  }

  /** A dictionary entry is its key slot, then its value slot. */
  lemma DictionaryEntryOfSlots(data: seq<byte>, pos: nat, keyTypeCode: int, valueTypeCode: int, k: Value, x: Value,
                               mid: nat, next: nat)
    requires SlotValue(data, pos, keyTypeCode) == Read(Ok(k), mid)
    requires SlotValue(data, mid, valueTypeCode) == Read(Ok(x), next)
    ensures DictionaryEntry(data, pos, keyTypeCode, valueTypeCode) == Read(Ok((k, x)), next)
  {
  }

  /** One turn of the parameter-table loop, once the entry it reads is known. */
  lemma ParameterTableEntriesUnfold(data: seq<byte>, pos: nat, count: int, rest: int, acc: map<int, Value>,
                                    k: int, x: Value, next: nat)
    requires count > 0 && rest == count - 1 && ParameterEntry(data, pos, 3) == Read(Ok((k, x)), next)
    ensures ParameterTableEntries(data, pos, count, acc) == ParameterTableEntries(data, next, rest, acc[k := x])
  {
  }

  /** How deserializeOperationResponse assembles its parts: code byte, uint16 return
      code, the debug message behind its own tag byte, then the parameter table. */
  lemma OperationResponseOfParts(data: seq<byte>, pos: nat, op: int, rc: int, d: Value, p: map<int, Value>,
                                 mid: nat, next: nat)
    requires DecodeByte(data, pos) == Read(Ok(op), pos + 1)
    requires DecodeShort(data, pos + 1) == Read(Ok(rc), pos + 3)
    requires TaggedValue(data, pos + 3) == Read(Ok(d), mid)
    requires DecodeParameterTable(data, mid) == Read(Ok(p), next)
    ensures DecodeOperationResponse(data, pos) == Read(Ok(OperationResponse(op, rc, d, p)), next)
  {
  }

  // ---------------------------------------------------------------------------
  // Dictionaries

  /** The entries of deserializeDictionaryElements as a list, in the order read. */
  function DictionaryEntryList(data: seq<byte>, pos: nat, count: int, keyTypeCode: int, valueTypeCode: int,
                               acc: seq<(Value, Value)>): Read<seq<(Value, Value)>>
    decreases count
  {
    if count <= 0 then Read(Ok(acc), pos)
    else
      var entry := DictionaryEntry(data, pos, keyTypeCode, valueTypeCode);
      if entry.result.Err? then Fail(entry)
      else DictionaryEntryList(data, entry.pos, count - 1, keyTypeCode, valueTypeCode, acc + [entry.result.value])
  }

  /** The dictionary is the list of entries stored one after another, so a repeated
      key keeps its last value (see Maps.UpsertedLastWins). */
  lemma {:induction false} DictionaryElementsUpsert(data: seq<byte>, pos: nat, count: int, keyTypeCode: int,
                                                     valueTypeCode: int, m: map<Value, Value>, acc: seq<(Value, Value)>)
    ensures var list := DictionaryEntryList(data, pos, count, keyTypeCode, valueTypeCode, acc);
            var dict := DictionaryElements(data, pos, count, keyTypeCode, valueTypeCode, Upserted(m, acc));
            && dict.pos == list.pos
            && dict.result.Ok? == list.result.Ok?
            && (list.result.Ok? ==> dict.result.value == Upserted(m, list.result.value))
            && (list.result.Err? ==> dict.result.error == list.result.error)
    decreases count
  {
    if count > 0 {
      var entry := DictionaryEntry(data, pos, keyTypeCode, valueTypeCode);
      if entry.result.Ok? {
        var (k, v) := entry.result.value;
        UpsertedSnoc(m, acc, k, v);
        DictionaryElementsUpsert(data, entry.pos, count - 1, keyTypeCode, valueTypeCode, m, acc + [(k, v)]);
      }
    }
  }

  /** A declared tag of 0 and one of 42 both make every entry carry its own tag:
      the two are interchangeable on either side. */
  lemma {:induction false} SentinelTagsAgree(data: seq<byte>, pos: nat, count: int, k1: int, k2: int,
                                             v1: int, v2: int, acc: map<Value, Value>)
    requires k1 == k2 || (T.IsInlineSentinel(k1) && T.IsInlineSentinel(k2))
    requires v1 == v2 || (T.IsInlineSentinel(v1) && T.IsInlineSentinel(v2))
    ensures DictionaryElements(data, pos, count, k1, v1, acc) == DictionaryElements(data, pos, count, k2, v2, acc)
    decreases count
  {
    if count > 0 {
      var key := SlotValue(data, pos, k1);
      assert key == SlotValue(data, pos, k2);
      assert SlotValue(data, key.pos, v1) == SlotValue(data, key.pos, v2);
      var entry := DictionaryEntry(data, pos, k1, v1);
      assert entry == DictionaryEntry(data, pos, k2, v2);
      if entry.result.Ok? {
        SentinelTagsAgree(data, entry.pos, count - 1, k1, k2, v1, v2, acc[entry.result.value.0 := entry.result.value.1]);
      }
    }
  }

  /** A Dictionary whose declared tags are both 0 or 42 reads like a Hashtable
      that starts after the two tag bytes. */
  lemma DictionaryWithInlineTagsIsHashtable(data: seq<byte>, pos: nat)
    requires pos + 2 <= |data|
    requires T.IsInlineSentinel(data[pos] as int) && T.IsInlineSentinel(data[pos + 1] as int)
    ensures DecodeDictionary(data, pos) == DecodeHashtable(data, pos + 2)
  {
    UnsignedOfOneByte(data[pos]);
    UnsignedOfOneByte(data[pos + 1]);
    assert data[pos .. pos + 1] == [data[pos]];
    assert data[pos + 1 .. pos + 2] == [data[pos + 1]];
    var size := DecodeShort(data, pos + 2);
    if size.result.Ok? {
      SentinelTagsAgree(data, size.pos, size.result.value, data[pos] as int, 0, data[pos + 1] as int, 0, map[]);
    }
  }

  /** A Dictionary body written with any declared slot tags and any list of entries
      decodes to the map those entries build, a later key overriding an earlier one. */
  lemma DictionaryRoundTrip(data: seq<byte>, pos: nat, keyTypeCode: nat, valueTypeCode: nat, entries: seq<(Value, Value)>)
    requires keyTypeCode < Pow256(1) && valueTypeCode < Pow256(1) && |entries| < Pow256(2)
    requires EntriesFit(keyTypeCode, valueTypeCode, entries)
    requires Within(data, pos, EncodeDictionary(keyTypeCode, valueTypeCode, entries))
    ensures DecodeValue(data, pos, T.DictionaryCode)
         == Read(Ok(Dictionary(Upserted(map[], entries))), pos + |EncodeDictionary(keyTypeCode, valueTypeCode, entries)|)
  {
    var rest := EncodeEntries(keyTypeCode, valueTypeCode, entries);
    DictionaryHead(data, pos, keyTypeCode, valueTypeCode, |entries|, rest);
    EntriesRoundTrip(data, pos + 4, keyTypeCode, valueTypeCode, entries, map[]);
    DictionaryOfParts(data, pos, keyTypeCode, valueTypeCode, |entries|, Upserted(map[], entries), pos + 4 + |rest|);
  }

  /** A Hashtable body with any list of entries decodes to the map those entries build. */
  lemma HashtableRoundTrip(data: seq<byte>, pos: nat, entries: seq<(Value, Value)>)
    requires |entries| < Pow256(2) && EntriesFit(T.UnknownCode, T.UnknownCode, entries)
    requires Within(data, pos, EncodeHashtable(entries))
    ensures DecodeValue(data, pos, T.HashtableCode)
         == Read(Ok(Dictionary(Upserted(map[], entries))), pos + |EncodeHashtable(entries)|)
  {
    var rest := EncodeEntries(T.UnknownCode, T.UnknownCode, entries);
    WithinSplit(data, pos, EncodeUnsigned(|entries|, 2), rest);
    UnsignedAtOfEncoding(data, pos, 2, 0, |entries|);
    EntriesRoundTrip(data, pos + 2, T.UnknownCode, T.UnknownCode, entries, map[]);
    HashtableOfParts(data, pos, |entries|, Upserted(map[], entries), pos + 2 + |rest|);
  }

  /** deserializeHashtable reads its count, then that many entries. */
  lemma HashtableOfParts(data: seq<byte>, pos: nat, count: int, m: map<Value, Value>, next: nat)
    requires DecodeShort(data, pos) == Read(Ok(count), pos + 2)
    requires DictionaryElements(data, pos + 2, count, T.UnknownCode, T.UnknownCode, map[]) == Read(Ok(m), next)
    ensures DecodeHashtable(data, pos) == Read(Ok(Dictionary(m)), next)
  {
  }

  /** The dictionary loop over written entries stores them one after another. */
  lemma {:induction false} EntriesRoundTrip(data: seq<byte>, pos: nat, keyTypeCode: int, valueTypeCode: int,
                                            entries: seq<(Value, Value)>, acc: map<Value, Value>)
    requires EntriesFit(keyTypeCode, valueTypeCode, entries)
    requires Within(data, pos, EncodeEntries(keyTypeCode, valueTypeCode, entries))
    ensures DictionaryElements(data, pos, |entries|, keyTypeCode, valueTypeCode, acc)
         == Read(Ok(Upserted(acc, entries)), pos + |EncodeEntries(keyTypeCode, valueTypeCode, entries)|)
    decreases |entries|
  {
    if entries != [] {
      var next := EntryStep(data, pos, keyTypeCode, valueTypeCode, entries, acc);
      EntriesRoundTrip(data, next, keyTypeCode, valueTypeCode, entries[1..], acc[entries[0].0 := entries[0].1]);
    }
  }

  /** The first turn of the dictionary loop over written entries. */
  lemma EntryStep(data: seq<byte>, pos: nat, keyTypeCode: int, valueTypeCode: int,
                  entries: seq<(Value, Value)>, acc: map<Value, Value>) returns (next: nat)
    requires entries != [] && EntriesFit(keyTypeCode, valueTypeCode, entries)
    requires Within(data, pos, EncodeEntries(keyTypeCode, valueTypeCode, entries))
    ensures EntriesFit(keyTypeCode, valueTypeCode, entries[1..])
    ensures Within(data, next, EncodeEntries(keyTypeCode, valueTypeCode, entries[1..]))
    ensures next + |EncodeEntries(keyTypeCode, valueTypeCode, entries[1..])|
         == pos + |EncodeEntries(keyTypeCode, valueTypeCode, entries)|
    ensures DictionaryElements(data, pos, |entries|, keyTypeCode, valueTypeCode, acc)
         == DictionaryElements(data, next, |entries[1..]|, keyTypeCode, valueTypeCode, acc[entries[0].0 := entries[0].1])
  {
    var (k, x) := entries[0];
    next := EntriesAdvance(data, pos, keyTypeCode, valueTypeCode, entries);
    SlotPairRoundTrip(data, pos, keyTypeCode, valueTypeCode, k, x);
    DictionaryElementsUnfold(data, pos, |entries|, |entries[1..]|, keyTypeCode, valueTypeCode, acc, k, x, next);
  }

  /** Where the first written entry ends and the rest of the list starts. */
  lemma EntriesAdvance(data: seq<byte>, pos: nat, keyTypeCode: int, valueTypeCode: int,
                       entries: seq<(Value, Value)>) returns (next: nat)
    requires entries != [] && EntriesFit(keyTypeCode, valueTypeCode, entries)
    requires Within(data, pos, EncodeEntries(keyTypeCode, valueTypeCode, entries))
    ensures SlotFits(keyTypeCode, entries[0].0) && SlotFits(valueTypeCode, entries[0].1)
    ensures var pair := EncodeSlot(keyTypeCode, entries[0].0) + EncodeSlot(valueTypeCode, entries[0].1);
            Within(data, pos, pair) && next == pos + |pair|
    ensures EntriesFit(keyTypeCode, valueTypeCode, entries[1..])
    ensures Within(data, next, EncodeEntries(keyTypeCode, valueTypeCode, entries[1..]))
    ensures next + |EncodeEntries(keyTypeCode, valueTypeCode, entries[1..])|
         == pos + |EncodeEntries(keyTypeCode, valueTypeCode, entries)|
  {
    var pair := EncodeSlot(keyTypeCode, entries[0].0) + EncodeSlot(valueTypeCode, entries[0].1);
    WithinSplit(data, pos, pair, EncodeEntries(keyTypeCode, valueTypeCode, entries[1..]));
    next := pos + |pair|;
  }

  /** A key slot and a value slot, written back to back, read back as the entry. */
  lemma SlotPairRoundTrip(data: seq<byte>, pos: nat, keyTypeCode: int, valueTypeCode: int, k: Value, x: Value)
    requires SlotFits(keyTypeCode, k) && SlotFits(valueTypeCode, x)
    requires Within(data, pos, EncodeSlot(keyTypeCode, k) + EncodeSlot(valueTypeCode, x))
    ensures DictionaryEntry(data, pos, keyTypeCode, valueTypeCode)
         == Read(Ok((k, x)), pos + |EncodeSlot(keyTypeCode, k) + EncodeSlot(valueTypeCode, x)|)
  {
    var a, b := EncodeSlot(keyTypeCode, k), EncodeSlot(valueTypeCode, x);
    var mid := SplitAt(data, pos, a, b);
    SlotRoundTrip(data, pos, keyTypeCode, k);
    SlotRoundTrip(data, mid, valueTypeCode, x);
    DictionaryEntryOfSlots(data, pos, keyTypeCode, valueTypeCode, k, x, mid, mid + |b|);
  }

  // ---------------------------------------------------------------------------
  // The parameter table of operation requests and responses

  /** A table with count 0 reads one skipped byte and the two count bytes. */
  lemma EmptyParameterTable(data: seq<byte>, pos: nat)
    requires pos + 3 <= |data| && data[pos + 1] == 0 && data[pos + 2] == 0
    ensures DecodeParameterTable(data, pos) == Read(Ok(map[]), pos + 3)
  {
    SmallCount(data, pos, 0);
    assert ParameterTableEntries(data, pos + 3, 0, map[]) == Read(Ok(map[]), pos + 3);
  }

  /** The layout of a one-entry table: a skipped byte, the count at 1-2, three
      skipped bytes, the key at 6, four skipped bytes, the tag at 11 and the value
      from 12 on. */
  lemma SingleEntryParameterTable(data: seq<byte>, pos: nat, key: byte, v: Value)
    requires Encodable(v) && Within(data, pos + 12, EncodeBody(v))
    requires data[pos + 1] == 0 && data[pos + 2] == 1
    requires data[pos + 6] == key && data[pos + 11] as int == TagOf(v)
    ensures DecodeParameterTable(data, pos) == Read(Ok(map[key as int := v]), pos + 12 + |EncodeBody(v)|)
  {
    SmallCount(data, pos, 1);
    SingleParameterEntry(data, pos + 3, key, v);
    OneParameterEntry(data, pos + 3, key as int, v, pos + 12 + |EncodeBody(v)|);
  }

  /** A zero byte and then n, after the skipped byte, are the count n. */
  lemma SmallCount(data: seq<byte>, pos: nat, n: nat)
    requires n < 256 && pos + 3 <= |data| && data[pos + 1] == 0 && data[pos + 2] as int == n
    ensures UnsignedAt(data, pos, 2, 1) == Read(Ok(n), pos + 3)
  {
    assert data[pos + 1 .. pos + 3] == EncodeUnsigned(n, 2);
    UnsignedAtOfEncoding(data, pos, 2, 1, n);
  }

  lemma OneParameterEntry(data: seq<byte>, pos: nat, key: int, v: Value, end: nat)
    requires ParameterEntry(data, pos, 3) == Read(Ok((key, v)), end)
    ensures ParameterTableEntries(data, pos, 1, map[]) == Read(Ok(map[key := v]), end)
  {
    assert ParameterTableEntries(data, end, 0, map[key := v]) == Read(Ok(map[key := v]), end);
  }
  /** A parameter table written from any list of entries decodes to the map those
      entries build, a later id overriding an earlier one. */
  lemma ParameterTableRoundTrip(data: seq<byte>, pos: nat, entries: seq<(int, Value)>)
    requires |entries| < Pow256(2) && TableEntriesFit(entries) && Within(data, pos, EncodeParameterTable(entries))
    ensures DecodeParameterTable(data, pos) == Read(Ok(Upserted(map[], entries)), pos + |EncodeParameterTable(entries)|)
  {
    var rest := EncodeTableEntries(entries);
    TableHead(data, pos, |entries|, rest);
    TableEntriesRoundTrip(data, pos + 3, entries, map[]);
    ParameterTableOfParts(data, pos, |entries|, Read(Ok(Upserted(map[], entries)), pos + 3 + |rest|));
  }

  /** The parameter-table loop over written entries stores them one after another. */
  lemma {:induction false} TableEntriesRoundTrip(data: seq<byte>, pos: nat, entries: seq<(int, Value)>, acc: map<int, Value>)
    requires TableEntriesFit(entries) && Within(data, pos, EncodeTableEntries(entries))
    ensures ParameterTableEntries(data, pos, |entries|, acc)
         == Read(Ok(Upserted(acc, entries)), pos + |EncodeTableEntries(entries)|)
    decreases |entries|
  {
    if entries != [] {
      var next := TableEntryStep(data, pos, entries, acc);
      TableEntriesRoundTrip(data, next, entries[1..], acc[entries[0].0 := entries[0].1]);
    }
  }

  /** The first turn of the parameter-table loop over written entries. */
  lemma TableEntryStep(data: seq<byte>, pos: nat, entries: seq<(int, Value)>, acc: map<int, Value>) returns (next: nat)
    requires entries != [] && TableEntriesFit(entries) && Within(data, pos, EncodeTableEntries(entries))
    ensures TableEntriesFit(entries[1..]) && Within(data, next, EncodeTableEntries(entries[1..]))
    ensures next + |EncodeTableEntries(entries[1..])| == pos + |EncodeTableEntries(entries)|
    ensures ParameterTableEntries(data, pos, |entries|, acc)
         == ParameterTableEntries(data, next, |entries[1..]|, acc[entries[0].0 := entries[0].1])
  {
    var (k, x) := entries[0];
    next := TableEntriesAdvance(data, pos, entries);
    TableEntryRoundTrip(data, pos, k, x);
    ParameterTableEntriesUnfold(data, pos, |entries|, |entries[1..]|, acc, k, x, next);
  }

  /** Where the first written table entry ends and the rest of the list starts. */
  lemma TableEntriesAdvance(data: seq<byte>, pos: nat, entries: seq<(int, Value)>) returns (next: nat)
    requires entries != [] && TableEntriesFit(entries) && Within(data, pos, EncodeTableEntries(entries))
    ensures 0 <= entries[0].0 < Pow256(1) && Encodable(entries[0].1)
    ensures Within(data, pos, EncodeTableEntry(entries[0].0, entries[0].1))
    ensures next == pos + |EncodeTableEntry(entries[0].0, entries[0].1)|
    ensures TableEntriesFit(entries[1..]) && Within(data, next, EncodeTableEntries(entries[1..]))
    ensures next + |EncodeTableEntries(entries[1..])| == pos + |EncodeTableEntries(entries)|
  {
    var e := EncodeTableEntry(entries[0].0, entries[0].1);
    WithinSplit(data, pos, e, EncodeTableEntries(entries[1..]));
    next := pos + |e|;
  }


  /** One parameter entry: three skipped bytes, the key, four skipped bytes, the tag, the value. */
  lemma SingleParameterEntry(data: seq<byte>, pos: nat, key: byte, v: Value)
    requires Encodable(v) && Within(data, pos + 9, EncodeBody(v))
    requires data[pos + 3] == key && data[pos + 8] as int == TagOf(v)
    ensures ParameterEntry(data, pos, 3) == Read(Ok((key as int, v)), pos + 9 + |EncodeBody(v)|)
    decreases v, 5
  {
    UnsignedOfOneByte(data[pos + 3]);
    assert data[pos + 3 .. pos + 4] == [data[pos + 3]];
    UnsignedOfOneByte(data[pos + 8]);
    assert data[pos + 8 .. pos + 9] == [data[pos + 8]];
    DecodeValueRoundTrip(data, pos + 9, v);
  }

  /** An OperationRequest is its code byte followed by the parameter table. */
  lemma OperationRequestLayout(data: seq<byte>, pos: nat)
    requires pos < |data|
    ensures DecodeOperationRequest(data, pos).pos == DecodeParameterTable(data, pos + 1).pos
    ensures DecodeParameterTable(data, pos + 1).result.Ok? ==>
              (DecodeOperationRequest(data, pos).result
               == Ok(OperationRequest(data[pos] as int, DecodeParameterTable(data, pos + 1).result.value)))
  {
    UnsignedOfOneByte(data[pos]);
    assert data[pos .. pos + 1] == [data[pos]];
  }

  /** An OperationResponse is its code byte, a uint16 return code, a debug message behind
      its own tag, then the parameter table; it fails where the first of these fails. */
  lemma OperationResponseLayout(data: seq<byte>, pos: nat)
    ensures pos + 3 > |data| ==> DecodeOperationResponse(data, pos).result == Err(RangeError)
    ensures pos + 3 <= |data| ==>
              var d := TaggedValue(data, pos + 3);
              var t := DecodeParameterTable(data, d.pos);
              && (d.result.Err? ==> DecodeOperationResponse(data, pos) == Fail(d))
              && (d.result.Ok? && t.result.Err? ==> DecodeOperationResponse(data, pos) == Fail(t))
              && (d.result.Ok? && t.result.Ok? ==>
                    DecodeOperationResponse(data, pos)
                    == Read(Ok(OperationResponse(data[pos] as int, Unsigned(data[pos + 1 .. pos + 3]),
                                                 d.result.value, t.result.value)), t.pos))
  {
    if pos < |data| {
      ByteAt(data, pos, 0);
    }
  }
}
