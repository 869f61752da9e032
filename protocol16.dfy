/** The one-byte type tags of the Protocol16 serialisation (enum Protocol16Type). */
module Protocol16Types {
  import opened Results

  datatype Protocol16Type =
    | Unknown | Null | Dictionary | StringArray | Byte | Double | Float | Integer | Hashtable
    | Short | Long | IntegerArray | Boolean | OperationResponse | OperationRequest | String
    | ByteArray | Array | ObjectArray

  /** The wire value of each tag. */
  const UnknownCode := 0
  const NullCode := 42
  const DictionaryCode := 68
  const StringArrayCode := 97
  const ByteCode := 98
  const DoubleCode := 100
  const FloatCode := 102
  const IntegerCode := 105
  const HashtableCode := 104
  const ShortCode := 107
  const LongCode := 108
  const IntegerArrayCode := 110
  const BooleanCode := 111
  const OperationResponseCode := 112
  const OperationRequestCode := 113
  const StringCode := 115
  const ByteArrayCode := 120
  const ArrayCode := 121
  const ObjectArrayCode := 122

  function Code(t: Protocol16Type): int
  {
    match t
    case Unknown => UnknownCode
    case Null => NullCode
    case Dictionary => DictionaryCode
    case StringArray => StringArrayCode
    case Byte => ByteCode
    case Double => DoubleCode
    case Float => FloatCode
    case Integer => IntegerCode
    case Hashtable => HashtableCode
    case Short => ShortCode
    case Long => LongCode
    case IntegerArray => IntegerArrayCode
    case Boolean => BooleanCode
    case OperationResponse => OperationResponseCode
    case OperationRequest => OperationRequestCode
    case String => StringCode
    case ByteArray => ByteArrayCode
    case Array => ArrayCode
    case ObjectArray => ObjectArrayCode
  }

  /** The tag a code stands for, if any: the cases of the switch in deserialize. */
  function FromCode(c: int): (t: Option<Protocol16Type>)
    ensures t.Some? ==> Code(t.value) == c
  {
    if c == UnknownCode then Some(Unknown)
    else if c == NullCode then Some(Null)
    else if c == DictionaryCode then Some(Dictionary)
    else if c == StringArrayCode then Some(StringArray)
    else if c == ByteCode then Some(Byte)
    else if c == DoubleCode then Some(Double)
    else if c == FloatCode then Some(Float)
    else if c == IntegerCode then Some(Integer)
    else if c == HashtableCode then Some(Hashtable)
    else if c == ShortCode then Some(Short)
    else if c == LongCode then Some(Long)
    else if c == IntegerArrayCode then Some(IntegerArray)
    else if c == BooleanCode then Some(Boolean)
    else if c == OperationResponseCode then Some(OperationResponse)
    else if c == OperationRequestCode then Some(OperationRequest)
    else if c == StringCode then Some(String)
    else if c == ByteArrayCode then Some(ByteArray)
    else if c == ArrayCode then Some(Array)
    else if c == ObjectArrayCode then Some(ObjectArray)
    else None
  }

  /** Every tag is recognised from its own code, so the enum's codes are distinct. */
  lemma FromCodeOfCode(t: Protocol16Type)
    ensures FromCode(Code(t)) == Some(t)
  {
  }

  /** The sentinel tags that make a dictionary entry carry its own inline tag. */
  predicate IsInlineSentinel(c: int)
  {
    c == NullCode || c == UnknownCode
  }
}

/** Protocol16Deserializer (src/utils/Protocol16Deserializer.ts). The Decode*
    functions are the specification: each takes the buffer and the cursor
    position and gives the decoded value (or the thrown error) and the position
    the cursor is left at. The Deserialize* methods mirror the source over a
    BufferCursor and are proved equal to them. */
module Protocol16 {
  import opened Bytes
  import opened Results
  import opened Cursor
  import T = Protocol16Types

  /** A decoded value. Strings are their UTF-8 bytes; Float and Double are IEEE-754 bit patterns. */
  datatype Value =
    | Null
    | Byte(byteValue: int)
    | Boolean(flag: bool)
    | Short(shortValue: int)
    | Integer(intValue: int)
    | IntegerArray(ints: seq<int>)
    | Long(longValue: int)
    | Float(floatBits: int)
    | Double(doubleBits: int)
    | String(utf8: seq<byte>)
    | StringArray(strings: seq<seq<byte>>)
    | ByteArray(bytes: seq<byte>)
    | Array(elements: seq<Value>)
    | ObjectArray(objects: seq<Value>)
    | Dictionary(entries: map<Value, Value>)
    | OperationRequest(operationCode: int, parameters: map<int, Value>)
    | OperationResponse(operationCode: int, returnCode: int, debugMessage: Value, parameters: map<int, Value>)

  /** An "unrecognised type" error only ever names a code that is not a tag. */
  predicate UnknownCodesOnly<X>(r: Result<X>)
  {
    r.Err? && r.error.UnknownTypeCode? ==> T.FromCode(r.error.code).None?
  }

  // ---------------------------------------------------------------------------
  // Specification: primitives

  function DecodeByte(data: seq<byte>, pos: nat): (r: Read<int>)
    ensures Advances(data, pos, r.pos)
    ensures r.result.Err? ==> r.result.error == RangeError
  {
    UnsignedAt(data, pos, 1, 0)
  }

  function DecodeBoolean(data: seq<byte>, pos: nat): (r: Read<bool>)
    ensures Advances(data, pos, r.pos)
    ensures r.result.Err? ==> r.result.error == RangeError
  {
    var b := UnsignedAt(data, pos, 1, 0);
    if b.result.Err? then Fail(b) else Read(Ok(b.result.value != 0), b.pos)
  }

  function DecodeInteger(data: seq<byte>, pos: nat): (r: Read<int>)
    ensures Advances(data, pos, r.pos)
    ensures r.result.Err? ==> r.result.error == RangeError
  {
    SignedAt(data, pos, 4, 0)
  }

  function DecodeShort(data: seq<byte>, pos: nat): (r: Read<int>)
    ensures Advances(data, pos, r.pos)
    ensures r.result.Err? ==> r.result.error == RangeError
  {
    UnsignedAt(data, pos, 2, 0)
  }

  function DecodeDouble(data: seq<byte>, pos: nat): (r: Read<int>)
    ensures Advances(data, pos, r.pos)
    ensures r.result.Err? ==> r.result.error == RangeError
  {
    UnsignedAt(data, pos, 8, 0)
  }

  /** Buffer.readBigInt64BE at the cursor, then seek past the 8 bytes. */
  function DecodeLong(data: seq<byte>, pos: nat): (r: Read<int>)
    ensures Advances(data, pos, r.pos)
    ensures r.result.Err? ==> r.result.error == RangeError
  {
    SignedAt(data, pos, 8, 0)
  }

  function DecodeFloat(data: seq<byte>, pos: nat): (r: Read<int>)
    ensures Advances(data, pos, r.pos)
    ensures r.result.Err? ==> r.result.error == RangeError
  {
    UnsignedAt(data, pos, 4, 0)
  }

  function DecodeString(data: seq<byte>, pos: nat): (r: Read<seq<byte>>)
    ensures Advances(data, pos, r.pos)
    ensures r.result.Err? ==> r.result.error == RangeError
  {
    var size := DecodeShort(data, pos);
    if size.result.Err? then Fail(size)
    else if size.result.value == 0 then Read(Ok([]), size.pos)
    else RegionAt(data, size.pos, Some(size.result.value))
  }

  function DecodeByteArray(data: seq<byte>, pos: nat): (r: Read<seq<byte>>)
    ensures Advances(data, pos, r.pos)
    ensures r.result.Err? ==> r.result.error == RangeError
  {
    var size := UnsignedAt(data, pos, 4, 0);
    if size.result.Err? then Fail(size)
    else RegionAt(data, size.pos, Some(size.result.value))
  }

  /** The loop of deserializeIntegerArray: `count` more integers appended to `acc`. */
  function IntegerElements(data: seq<byte>, pos: nat, count: int, acc: seq<int>): (r: Read<seq<int>>)
    decreases count
    ensures Advances(data, pos, r.pos)
    ensures r.result.Err? ==> r.result.error == RangeError
  {
    if count <= 0 then Read(Ok(acc), pos)
    else
      var e := DecodeInteger(data, pos);
      if e.result.Err? then Fail(e)
      else IntegerElements(data, e.pos, count - 1, acc + [e.result.value])
  }

  /** deserializeIntegerArray: the count is itself a (signed) Integer. */
  function DecodeIntegerArray(data: seq<byte>, pos: nat): (r: Read<seq<int>>)
    ensures Advances(data, pos, r.pos)
    ensures r.result.Err? ==> r.result.error == RangeError
  {
    var size := DecodeInteger(data, pos);
    if size.result.Err? then Fail(size)
    else IntegerElements(data, size.pos, size.result.value, [])
  }

  /** The loop of deserializeStringArray. */
  function StringElements(data: seq<byte>, pos: nat, count: int, acc: seq<seq<byte>>): (r: Read<seq<seq<byte>>>)
    decreases count
    ensures Advances(data, pos, r.pos)
    ensures r.result.Err? ==> r.result.error == RangeError
  {
    if count <= 0 then Read(Ok(acc), pos)
    else
      var e := DecodeString(data, pos);
      if e.result.Err? then Fail(e)
      else StringElements(data, e.pos, count - 1, acc + [e.result.value])
  }

  function DecodeStringArray(data: seq<byte>, pos: nat): (r: Read<seq<seq<byte>>>)
    ensures Advances(data, pos, r.pos)
    ensures r.result.Err? ==> r.result.error == RangeError
  {
    var size := DecodeShort(data, pos);
    if size.result.Err? then Fail(size)
    else StringElements(data, size.pos, size.result.value, [])
  }

  // ---------------------------------------------------------------------------
  // Specification: the recursive decoder. Termination: a composite tag reads at
  // least one byte before it decodes a nested value, so the measure is the
  // number of bytes left, then the rank of the function (the dictionary and parameter-table
  // loops 3, their single entries and the other loops 2, deserialize 1, the
  // composite decoders 0), then the number of entries left.

  /** deserialize(input, typeCode). */
  function DecodeValue(data: seq<byte>, pos: nat, typeCode: int): (r: Read<Value>)
    decreases |data| - pos, 1
    ensures Advances(data, pos, r.pos)
    ensures UnknownCodesOnly(r.result)
  {
    match T.FromCode(typeCode)
    case None => Read(Err(UnknownTypeCode(typeCode)), pos)
    case Some(t) =>
      match t
      case Unknown => Read(Ok(Null), pos)
      case Null => Read(Ok(Null), pos)
      case Byte =>
        var d := DecodeByte(data, pos);
        if d.result.Err? then Fail(d) else Read(Ok(Byte(d.result.value)), d.pos)
      case Boolean =>
        var d := DecodeBoolean(data, pos);
        if d.result.Err? then Fail(d) else Read(Ok(Boolean(d.result.value)), d.pos)
      case Short =>
        var d := DecodeShort(data, pos);
        if d.result.Err? then Fail(d) else Read(Ok(Short(d.result.value)), d.pos)
      case Integer =>
        var d := DecodeInteger(data, pos);
        if d.result.Err? then Fail(d) else Read(Ok(Integer(d.result.value)), d.pos)
      case IntegerArray =>
        var d := DecodeIntegerArray(data, pos);
        if d.result.Err? then Fail(d) else Read(Ok(IntegerArray(d.result.value)), d.pos)
      case Double =>
        var d := DecodeDouble(data, pos);
        if d.result.Err? then Fail(d) else Read(Ok(Double(d.result.value)), d.pos)
      case Long =>
        var d := DecodeLong(data, pos);
        if d.result.Err? then Fail(d) else Read(Ok(Long(d.result.value)), d.pos)
      case Float =>
        var d := DecodeFloat(data, pos);
        if d.result.Err? then Fail(d) else Read(Ok(Float(d.result.value)), d.pos)
      case String =>
        var d := DecodeString(data, pos);
        if d.result.Err? then Fail(d) else Read(Ok(String(d.result.value)), d.pos)
      case StringArray =>
        var d := DecodeStringArray(data, pos);
        if d.result.Err? then Fail(d) else Read(Ok(StringArray(d.result.value)), d.pos)
      case ByteArray =>
        var d := DecodeByteArray(data, pos);
        if d.result.Err? then Fail(d) else Read(Ok(ByteArray(d.result.value)), d.pos)
      case Dictionary => DecodeDictionary(data, pos)
      case Array => DecodeArray(data, pos)
      case OperationResponse => DecodeOperationResponse(data, pos)
      case OperationRequest => DecodeOperationRequest(data, pos)
      case Hashtable => DecodeHashtable(data, pos)
      case ObjectArray => DecodeObjectArray(data, pos)
  }

  /** The loop of deserializeArray: `count` more values, all decoded with the one shared tag. */
  function ArrayElements(data: seq<byte>, pos: nat, typeCode: int, count: int, acc: seq<Value>): (r: Read<seq<Value>>)
    decreases |data| - pos, 3, count
    ensures Advances(data, pos, r.pos)
    ensures UnknownCodesOnly(r.result)
    ensures r.result.Ok? ==> |r.result.value| == |acc| + (if count < 0 then 0 else count)
  {
    if count <= 0 then Read(Ok(acc), pos)
    else
      var e := ArrayElement(data, pos, typeCode);
      if e.result.Err? then Fail(e)
      else ArrayElements(data, e.pos, typeCode, count - 1, acc + [e.result.value])
  }

  /** One element of that loop: a value decoded with the shared tag. */
  function ArrayElement(data: seq<byte>, pos: nat, typeCode: int): (r: Read<Value>)
    decreases |data| - pos, 2
    ensures Advances(data, pos, r.pos)
    ensures UnknownCodesOnly(r.result)
  {
    DecodeValue(data, pos, typeCode)
  }

  /** deserializeArray: a uint16 count, one element tag, then the elements. */
  function DecodeArray(data: seq<byte>, pos: nat): (r: Read<Value>)
    decreases |data| - pos, 0
    ensures Advances(data, pos, r.pos)
    ensures UnknownCodesOnly(r.result)
  {
    var size := DecodeShort(data, pos);
    if size.result.Err? then Fail(size)
    else
      var typeCode := DecodeByte(data, size.pos);
      if typeCode.result.Err? then Fail(typeCode)
      else
        var es := ArrayElements(data, typeCode.pos, typeCode.result.value, size.result.value, []);
        if es.result.Err? then Fail(es) else Read(Ok(Array(es.result.value)), es.pos)
  }

  /** The loop of deserializeObjectArray: each element reads its own tag first. */
  function ObjectArrayElements(data: seq<byte>, pos: nat, count: int, acc: seq<Value>): (r: Read<seq<Value>>)
    decreases |data| - pos, 2, count
    ensures Advances(data, pos, r.pos)
    ensures UnknownCodesOnly(r.result)
    ensures r.result.Ok? ==> |r.result.value| == |acc| + (if count < 0 then 0 else count)
  {
    if count <= 0 then Read(Ok(acc), pos)
    else
      var e := TaggedValue(data, pos);
      if e.result.Err? then Fail(e)
      else ObjectArrayElements(data, e.pos, count - 1, acc + [e.result.value])
  }

  /** A tag byte, then the value decoded with it: one element of that loop, and the
      way the packet factory reads a parameter's value. */
  function TaggedValue(data: seq<byte>, pos: nat): (r: Read<Value>)
    decreases |data| - pos, 1
    ensures Advances(data, pos, r.pos)
    ensures UnknownCodesOnly(r.result)
  {
    var typeCode := DecodeByte(data, pos);
    if typeCode.result.Err? then Fail(typeCode)
    else DecodeValue(data, typeCode.pos, typeCode.result.value)
  }

  function DecodeObjectArray(data: seq<byte>, pos: nat): (r: Read<Value>)
    decreases |data| - pos, 0
    ensures Advances(data, pos, r.pos)
    ensures UnknownCodesOnly(r.result)
  {
    var size := DecodeShort(data, pos);
    if size.result.Err? then Fail(size)
    else
      var es := ObjectArrayElements(data, size.pos, size.result.value, []);
      if es.result.Err? then Fail(es) else Read(Ok(ObjectArray(es.result.value)), es.pos)
  }

  /** The tag a dictionary slot is decoded with: read inline when the declared tag is a sentinel. */
  function SlotTypeCode(data: seq<byte>, pos: nat, declared: int): (r: Read<int>)
    ensures Advances(data, pos, r.pos)
    ensures r.result.Err? ==> r.result.error == RangeError
  {
    if T.IsInlineSentinel(declared) then DecodeByte(data, pos) else Read(Ok(declared), pos)
  }

  /** One slot of deserializeDictionaryElements: a value decoded with its slot tag. */
  function SlotValue(data: seq<byte>, pos: nat, declared: int): (r: Read<Value>)
    decreases |data| - pos, 2
    ensures Advances(data, pos, r.pos)
    ensures UnknownCodesOnly(r.result)
  {
    var typeCode := SlotTypeCode(data, pos, declared);
    if typeCode.result.Err? then Fail(typeCode) else DecodeValue(data, typeCode.pos, typeCode.result.value)
  }

  /** One key and value of deserializeDictionaryElements, each behind its slot tag. */
  function DictionaryEntry(data: seq<byte>, pos: nat, keyTypeCode: int, valueTypeCode: int): (r: Read<(Value, Value)>)
    decreases |data| - pos, 3
    ensures Advances(data, pos, r.pos)
    ensures UnknownCodesOnly(r.result)
  {
    var key := SlotValue(data, pos, keyTypeCode);
    if key.result.Err? then Fail(key)
    else
      var value := SlotValue(data, key.pos, valueTypeCode);
      if value.result.Err? then Fail(value)
      else Read(Ok((key.result.value, value.result.value)), value.pos)
  }

  /** The loop of deserializeDictionaryElements: entries in order; a repeated key keeps the later value. */
  function DictionaryElements(data: seq<byte>, pos: nat, count: int, keyTypeCode: int, valueTypeCode: int,
                              acc: map<Value, Value>): (r: Read<map<Value, Value>>)
    decreases |data| - pos, 4, count
    ensures Advances(data, pos, r.pos)
    ensures UnknownCodesOnly(r.result)
  {
    if count <= 0 then Read(Ok(acc), pos)
    else
      var entry := DictionaryEntry(data, pos, keyTypeCode, valueTypeCode);
      if entry.result.Err? then Fail(entry)
      else
        DictionaryElements(data, entry.pos, count - 1, keyTypeCode, valueTypeCode,
                           acc[entry.result.value.0 := entry.result.value.1])
  }

  /** deserializeHashtable: a uint16 count; every key and value carries its own tag. */
  function DecodeHashtable(data: seq<byte>, pos: nat): (r: Read<Value>)
    decreases |data| - pos, 0
    ensures Advances(data, pos, r.pos)
    ensures UnknownCodesOnly(r.result)
  {
    var size := DecodeShort(data, pos);
    if size.result.Err? then Fail(size)
    else
      var m := DictionaryElements(data, size.pos, size.result.value, 0, 0, map[]);
      if m.result.Err? then Fail(m) else Read(Ok(Dictionary(m.result.value)), m.pos)
  }

  /** deserializeDictionary: key tag, value tag, uint16 count, then the entries. */
  function DecodeDictionary(data: seq<byte>, pos: nat): (r: Read<Value>)
    decreases |data| - pos, 0
    ensures Advances(data, pos, r.pos)
    ensures UnknownCodesOnly(r.result)
  {
    var keyTypeCode := DecodeByte(data, pos);
    if keyTypeCode.result.Err? then Fail(keyTypeCode)
    else
      var valueTypeCode := DecodeByte(data, keyTypeCode.pos);
      if valueTypeCode.result.Err? then Fail(valueTypeCode)
      else
        var size := DecodeShort(data, valueTypeCode.pos);
        if size.result.Err? then Fail(size)
        else
          var m := DictionaryElements(data, size.pos, size.result.value, keyTypeCode.result.value,
                                      valueTypeCode.result.value, map[]);
          if m.result.Err? then Fail(m) else Read(Ok(Dictionary(m.result.value)), m.pos)
  }

  /** One parameter-table entry read with the loop's offset: the key at offset, the tag at
      offset + 1 past the key, then the value. */
  function ParameterEntry(data: seq<byte>, pos: nat, offset: nat): (r: Read<(int, Value)>)
    decreases |data| - pos, 2
    ensures Advances(data, pos, r.pos)
    ensures UnknownCodesOnly(r.result)
  {
    var key := UnsignedAt(data, pos, 1, offset);
    if key.result.Err? then Fail(key)
    else
      var valueTypeCode := UnsignedAt(data, key.pos, 1, offset + 1);
      if valueTypeCode.result.Err? then Fail(valueTypeCode)
      else
        var value := DecodeValue(data, valueTypeCode.pos, valueTypeCode.result.value);
        if value.result.Err? then Fail(value)
        else Read(Ok((key.result.value, value.result.value)), value.pos)
  }

  /** The loop of deserializeParameterTable. Its offset is never updated, so every
      entry skips 3 bytes before the key and 4 more before the tag. */
  function ParameterTableEntries(data: seq<byte>, pos: nat, count: int, acc: map<int, Value>): (r: Read<map<int, Value>>)
    decreases |data| - pos, 3, count
    ensures Advances(data, pos, r.pos)
    ensures UnknownCodesOnly(r.result)
  {
    if count <= 0 then Read(Ok(acc), pos)
    else
      var entry := ParameterEntry(data, pos, 3);
      if entry.result.Err? then Fail(entry)
      else ParameterTableEntries(data, entry.pos, count - 1, acc[entry.result.value.0 := entry.result.value.1])
  }

  /** deserializeParameterTable: skips 1 byte, reads a uint16 count, then the entries. */
  function DecodeParameterTable(data: seq<byte>, pos: nat): (r: Read<map<int, Value>>)
    decreases |data| - pos, 0
    ensures Advances(data, pos, r.pos)
    ensures UnknownCodesOnly(r.result)
  {
    var size := UnsignedAt(data, pos, 2, 1);
    if size.result.Err? then Fail(size)
    else ParameterTableEntries(data, size.pos, size.result.value, map[])
  }

  function DecodeOperationRequest(data: seq<byte>, pos: nat): (r: Read<Value>)
    decreases |data| - pos, 0
    ensures Advances(data, pos, r.pos)
    ensures UnknownCodesOnly(r.result)
  {
    var operationCode := DecodeByte(data, pos);
    if operationCode.result.Err? then Fail(operationCode)
    else
      var p := DecodeParameterTable(data, operationCode.pos);
      if p.result.Err? then Fail(p) else Read(Ok(OperationRequest(operationCode.result.value, p.result.value)), p.pos)
  }

  function DecodeOperationResponse(data: seq<byte>, pos: nat): (r: Read<Value>)
    decreases |data| - pos, 0
    ensures Advances(data, pos, r.pos)
    ensures UnknownCodesOnly(r.result)
  {
    var operationCode := DecodeByte(data, pos);
    if operationCode.result.Err? then Fail(operationCode)
    else
      var returnCode := DecodeShort(data, operationCode.pos);
      if returnCode.result.Err? then Fail(returnCode)
      else
        var debugMessage := TaggedValue(data, returnCode.pos);
        if debugMessage.result.Err? then Fail(debugMessage)
        else
          var p := DecodeParameterTable(data, debugMessage.pos);
          if p.result.Err? then Fail(p)
          else Read(Ok(OperationResponse(operationCode.result.value, returnCode.result.value,
                                         debugMessage.result.value, p.result.value)), p.pos)
  }
}
