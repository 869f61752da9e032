/** The static methods of Protocol16Deserializer over a shared BufferCursor. Each
    advances the cursor as the source does and is proved to return, and to leave
    the cursor, exactly as its Decode* specification says. */
module Protocol16Deserializer {
  import opened Bytes
  import opened Results
  import opened Cursor
  import opened Protocol16
  import T = Protocol16Types

  method Deserialize(input: BufferCursor, typeCode: int) returns (r: Result<Value>)
    requires input.Valid()
    modifies input`cursorPosition
    decreases input.length - input.cursorPosition, 1
    ensures Read(r, input.cursorPosition) == DecodeValue(input.buffer, old(input.cursorPosition), typeCode)
  {
    match T.FromCode(typeCode)
    case None =>
      r := Err(UnknownTypeCode(typeCode));
    case Some(t) =>
      match t
      case Unknown =>
        r := Ok(Null);
      case Null =>
        r := Ok(Null);
      case Byte =>
        var b :- DeserializeByte(input);
        r := Ok(Byte(b));
      case Boolean =>
        var b :- DeserializeBoolean(input);
        r := Ok(Boolean(b));
      case Short =>
        var s :- DeserializeShort(input);
        r := Ok(Short(s));
      case Integer =>
        var i :- DeserializeInteger(input);
        r := Ok(Integer(i));
      case IntegerArray =>
        var a :- DeserializeIntegerArray(input);
        r := Ok(IntegerArray(a));
      case Double =>
        var d :- DeserializeDouble(input);
        r := Ok(Double(d));
      case Long =>
        var l :- DeserializeLong(input);
        r := Ok(Long(l));
      case Float =>
        var f :- DeserializeFloat(input);
        r := Ok(Float(f));
      case String =>
        var s :- DeserializeString(input);
        r := Ok(String(s));
      case StringArray =>
        var a :- DeserializeStringArray(input);
        r := Ok(StringArray(a));
      case ByteArray =>
        var b :- DeserializeByteArray(input);
        r := Ok(ByteArray(b));
      case Dictionary =>
        r := DeserializeDictionary(input);
      case Array =>
        r := DeserializeArray(input);
      case OperationResponse =>
        r := DeserializeOperationResponse(input);
      case OperationRequest =>
        r := DeserializeOperationRequest(input);
      case Hashtable =>
        r := DeserializeHashtable(input);
      case ObjectArray =>
        r := DeserializeObjectArray(input);
  }

  method DeserializeByte(input: BufferCursor) returns (r: Result<int>)
    requires input.Valid()
    modifies input`cursorPosition
    ensures Read(r, input.cursorPosition) == DecodeByte(input.buffer, old(input.cursorPosition))
  {
    r := input.ReadUInt8(0);
  }

  method DeserializeBoolean(input: BufferCursor) returns (r: Result<bool>)
    requires input.Valid()
    modifies input`cursorPosition
    ensures Read(r, input.cursorPosition) == DecodeBoolean(input.buffer, old(input.cursorPosition))
  {
    var b :- input.ReadUInt8(0);
    r := Ok(b != 0);
  }

  method DeserializeInteger(input: BufferCursor) returns (r: Result<int>)
    requires input.Valid()
    modifies input`cursorPosition
    ensures Read(r, input.cursorPosition) == DecodeInteger(input.buffer, old(input.cursorPosition))
  {
    r := input.ReadInt32BE(0);
  }

  method DeserializeIntegerArray(input: BufferCursor) returns (r: Result<seq<int>>)
    requires input.Valid()
    modifies input`cursorPosition
    ensures Read(r, input.cursorPosition) == DecodeIntegerArray(input.buffer, old(input.cursorPosition))
  {
    var size :- DeserializeInteger(input);
    ghost var start := input.cursorPosition;
    var res: seq<int> := [];
    var i := 0;
    while i < size
      invariant 0 <= i
      invariant IntegerElements(input.buffer, start, size, [])
             == IntegerElements(input.buffer, input.cursorPosition, size - i, res)
    {
      var value :- DeserializeInteger(input);
      res := res + [value];
      i := i + 1;
    }
    r := Ok(res);
  }

  method DeserializeShort(input: BufferCursor) returns (r: Result<int>)
    requires input.Valid()
    modifies input`cursorPosition
    ensures Read(r, input.cursorPosition) == DecodeShort(input.buffer, old(input.cursorPosition))
  {
    r := input.ReadUInt16BE(0);
  }

  method DeserializeDouble(input: BufferCursor) returns (r: Result<int>)
    requires input.Valid()
    modifies input`cursorPosition
    ensures Read(r, input.cursorPosition) == DecodeDouble(input.buffer, old(input.cursorPosition))
  {
    r := input.ReadDoubleBE(0);
  }

  /** Reads the buffer directly at tell() and then seeks 8 bytes on. */
  method DeserializeLong(input: BufferCursor) returns (r: Result<int>)
    requires input.Valid()
    modifies input`cursorPosition
    ensures Read(r, input.cursorPosition) == DecodeLong(input.buffer, old(input.cursorPosition))
  {
    if input.Tell() + 8 > input.length {
      return Err(RangeError);
    }
    var res := Signed(input.buffer[input.Tell() .. input.Tell() + 8]);
    var _ := input.Seek(input.Tell() + 8);
    r := Ok(res);
  }

  method DeserializeFloat(input: BufferCursor) returns (r: Result<int>)
    requires input.Valid()
    modifies input`cursorPosition
    ensures Read(r, input.cursorPosition) == DecodeFloat(input.buffer, old(input.cursorPosition))
  {
    r := input.ReadFloatBE(0);
  }

  method DeserializeString(input: BufferCursor) returns (r: Result<seq<byte>>)
    requires input.Valid()
    modifies input`cursorPosition
    ensures Read(r, input.cursorPosition) == DecodeString(input.buffer, old(input.cursorPosition))
  {
    var stringSize :- DeserializeShort(input);
    if stringSize == 0 {
      r := Ok([]);
    } else {
      r := input.ToString(Some(stringSize));
    }
  }

  /** The bytes of a fresh sub-cursor; they are not decoded further. */
  method DeserializeByteArray(input: BufferCursor) returns (r: Result<seq<byte>>)
    requires input.Valid()
    modifies input`cursorPosition
    ensures Read(r, input.cursorPosition) == DecodeByteArray(input.buffer, old(input.cursorPosition))
  {
    var arraySize :- input.ReadUInt32BE(0);
    var sub :- input.Subarray(Some(arraySize));
    r := Ok(sub.buffer);
  }

  method DeserializeArray(input: BufferCursor) returns (r: Result<Value>)
    requires input.Valid()
    modifies input`cursorPosition
    decreases input.length - input.cursorPosition, 0
    ensures Read(r, input.cursorPosition) == DecodeArray(input.buffer, old(input.cursorPosition))
  {
    var size :- DeserializeShort(input);
    var typeCode :- DeserializeByte(input);
    ghost var start := input.cursorPosition;
    var res: seq<Value> := [];
    var i := 0;
    while i < size
      invariant 0 <= i
      invariant Advances(input.buffer, start, input.cursorPosition)
      invariant ArrayElements(input.buffer, start, typeCode, size, [])
             == ArrayElements(input.buffer, input.cursorPosition, typeCode, size - i, res)
    {
      var value :- Deserialize(input, typeCode);
      res := res + [value];
      i := i + 1;
    }
    r := Ok(Array(res));
  }

  method DeserializeStringArray(input: BufferCursor) returns (r: Result<seq<seq<byte>>>)
    requires input.Valid()
    modifies input`cursorPosition
    ensures Read(r, input.cursorPosition) == DecodeStringArray(input.buffer, old(input.cursorPosition))
  {
    var size :- DeserializeShort(input);
    r := DeserializeStrings(input, size);
  }

  /** The loop of deserializeStringArray: size strings, one after the other. */
  method DeserializeStrings(input: BufferCursor, size: nat) returns (r: Result<seq<seq<byte>>>)
    requires input.Valid()
    modifies input`cursorPosition
    ensures Read(r, input.cursorPosition) == StringElements(input.buffer, old(input.cursorPosition), size, [])
  {
    ghost var start, data := input.cursorPosition, input.buffer;
    var res: seq<seq<byte>> := [];
    var i := 0;
    while i < size
      invariant StringElements(data, start, size, []) == StringElements(data, input.cursorPosition, size - i, res)
    {
      ghost var here, left := input.cursorPosition, size - i;
      var value := DeserializeString(input);
      if value.Err? {
        StringElementsFail(data, here, left, res);
        return Err(value.error);
      }
      ghost var before := res;
      res := res + [value.value];
      i := i + 1;
      StringElementsUnfold(data, here, left, size - i, before, res, value.value, input.cursorPosition);
    }
    StringElementsDone(data, input.cursorPosition, res);
    r := Ok(res);
  }

  /** One turn of the StringArray loop, once the string it reads is known. */
  lemma StringElementsUnfold(data: seq<byte>, pos: nat, count: int, rest: int, acc: seq<seq<byte>>,
                             extended: seq<seq<byte>>, e: seq<byte>, next: nat)
    requires count > 0 && rest == count - 1 && extended == acc + [e]
    requires DecodeString(data, pos) == Read(Ok(e), next)
    ensures StringElements(data, pos, count, acc) == StringElements(data, next, rest, extended)
  {
  }

  /** The StringArray loop ends once no string is left. */
  lemma StringElementsDone(data: seq<byte>, pos: nat, acc: seq<seq<byte>>)
    ensures StringElements(data, pos, 0, acc) == Read(Ok(acc), pos)
  {
  }

  /** A string that cannot be read ends the StringArray loop with its error. */
  lemma StringElementsFail(data: seq<byte>, pos: nat, count: int, acc: seq<seq<byte>>)
    requires count > 0 && DecodeString(data, pos).result.Err?
    ensures StringElements(data, pos, count, acc) == Fail(DecodeString(data, pos))
  {
  }

  method DeserializeObjectArray(input: BufferCursor) returns (r: Result<Value>)
    requires input.Valid()
    modifies input`cursorPosition
    decreases input.length - input.cursorPosition, 0
    ensures Read(r, input.cursorPosition) == DecodeObjectArray(input.buffer, old(input.cursorPosition))
  {
    var tableSize :- DeserializeShort(input);
    ghost var start := input.cursorPosition;
    var output: seq<Value> := [];
    var i := 0;
    while i < tableSize
      invariant |output| == i
      invariant Advances(input.buffer, start, input.cursorPosition)
      invariant ObjectArrayElements(input.buffer, start, tableSize, [])
             == ObjectArrayElements(input.buffer, input.cursorPosition, tableSize - i, output)
    {
      var typeCode :- DeserializeByte(input);
      var value :- Deserialize(input, typeCode);
      output := output + [value];
      i := i + 1;
    }
    r := Ok(ObjectArray(output));
  }

  method DeserializeHashtable(input: BufferCursor) returns (r: Result<Value>)
    requires input.Valid()
    modifies input`cursorPosition
    decreases input.length - input.cursorPosition, 0
    ensures Read(r, input.cursorPosition) == DecodeHashtable(input.buffer, old(input.cursorPosition))
  {
    var tableSize :- DeserializeShort(input);
    var entries :- DeserializeDictionaryElements(input, tableSize, 0, 0);
    r := Ok(Dictionary(entries));
  }

  method DeserializeDictionary(input: BufferCursor) returns (r: Result<Value>)
    requires input.Valid()
    modifies input`cursorPosition
    decreases input.length - input.cursorPosition, 0
    ensures Read(r, input.cursorPosition) == DecodeDictionary(input.buffer, old(input.cursorPosition))
  {
    var keyTypeCode :- DeserializeByte(input);
    var valueTypeCode :- DeserializeByte(input);
    var dictionarySize :- DeserializeShort(input);
    var entries :- DeserializeDictionaryElements(input, dictionarySize, keyTypeCode, valueTypeCode);
    r := Ok(Dictionary(entries));
  }

  method DeserializeDictionaryElements(input: BufferCursor, dictionarySize: int, keyTypeCode: int,
                                       valueTypeCode: int) returns (r: Result<map<Value, Value>>)
    requires input.Valid()
    modifies input`cursorPosition
    decreases input.length - input.cursorPosition, 3
    ensures Read(r, input.cursorPosition)
         == DictionaryElements(input.buffer, old(input.cursorPosition), dictionarySize, keyTypeCode, valueTypeCode, map[])
  {
    ghost var start := input.cursorPosition;
    var output: map<Value, Value> := map[];
    var i := 0;
    while i < dictionarySize
      invariant 0 <= i
      invariant Advances(input.buffer, start, input.cursorPosition)
      invariant DictionaryElements(input.buffer, start, dictionarySize, keyTypeCode, valueTypeCode, map[])
             == DictionaryElements(input.buffer, input.cursorPosition, dictionarySize - i, keyTypeCode, valueTypeCode, output)
    {
      var entry :- DeserializeDictionaryEntry(input, keyTypeCode, valueTypeCode);
      output := output[entry.0 := entry.1];
      i := i + 1;
    }
    r := Ok(output);
  }

  method DeserializeDictionaryEntry(input: BufferCursor, keyTypeCode: int, valueTypeCode: int)
    returns (r: Result<(Value, Value)>)
    requires input.Valid()
    modifies input`cursorPosition
    decreases input.length - input.cursorPosition, 2
    ensures Read(r, input.cursorPosition) == DictionaryEntry(input.buffer, old(input.cursorPosition), keyTypeCode, valueTypeCode)
  {
    var keyCode :- DeserializeSlotTypeCode(input, keyTypeCode);
    var key :- Deserialize(input, keyCode);
    var valueCode :- DeserializeSlotTypeCode(input, valueTypeCode);
    var value :- Deserialize(input, valueCode);
    r := Ok((key, value));
  }

  /** The tag of one dictionary slot: the declared one, or an inline byte when it is 0 or 42. */
  method DeserializeSlotTypeCode(input: BufferCursor, declared: int) returns (r: Result<int>)
    requires input.Valid()
    modifies input`cursorPosition
    ensures Read(r, input.cursorPosition) == SlotTypeCode(input.buffer, old(input.cursorPosition), declared)
  {
    if T.IsInlineSentinel(declared) {
      r := DeserializeByte(input);
    } else {
      r := Ok(declared);
    }
  }

  method DeserializeOperationRequest(input: BufferCursor) returns (r: Result<Value>)
    requires input.Valid()
    modifies input`cursorPosition
    decreases input.length - input.cursorPosition, 0
    ensures Read(r, input.cursorPosition) == DecodeOperationRequest(input.buffer, old(input.cursorPosition))
  {
    var operationCode :- DeserializeByte(input);
    var parameters :- DeserializeParameterTable(input);
    r := Ok(OperationRequest(operationCode, parameters));
  }

  method DeserializeOperationResponse(input: BufferCursor) returns (r: Result<Value>)
    requires input.Valid()
    modifies input`cursorPosition
    decreases input.length - input.cursorPosition, 0
    ensures Read(r, input.cursorPosition) == DecodeOperationResponse(input.buffer, old(input.cursorPosition))
  {
    var operationCode :- DeserializeByte(input);
    var returnCode :- DeserializeShort(input);
    var debugTypeCode :- DeserializeByte(input);
    var debugMessage :- Deserialize(input, debugTypeCode);
    var parameters :- DeserializeParameterTable(input);
    r := Ok(OperationResponse(operationCode, returnCode, debugMessage, parameters));
  }

  method DeserializeParameterEntry(input: BufferCursor, offset: nat) returns (r: Result<(int, Value)>)
    requires input.Valid()
    modifies input`cursorPosition
    decreases input.length - input.cursorPosition, 2
    ensures Read(r, input.cursorPosition) == ParameterEntry(input.buffer, old(input.cursorPosition), offset)
  {
    var key :- input.ReadUInt8(offset);
    var valueTypeCode :- input.ReadUInt8(offset + 1);
    var value :- Deserialize(input, valueTypeCode);
    r := Ok((key, value));
  }

  /** The offset stays 3 for every entry: key at cursor+3, tag at cursor+4 after that. */
  method DeserializeParameterTable(input: BufferCursor) returns (r: Result<map<int, Value>>)
    requires input.Valid()
    modifies input`cursorPosition
    decreases input.length - input.cursorPosition, 0
    ensures Read(r, input.cursorPosition) == DecodeParameterTable(input.buffer, old(input.cursorPosition))
  {
    var tableSize :- input.ReadUInt16BE(1);
    var table: map<int, Value> := map[];
    var offset := 3;
    ghost var start := input.cursorPosition;
    var i := 0;
    while i < tableSize
      invariant offset == 3
      invariant Advances(input.buffer, start, input.cursorPosition)
      invariant ParameterTableEntries(input.buffer, start, tableSize, map[])
             == ParameterTableEntries(input.buffer, input.cursorPosition, tableSize - i, table)
    {
      var entry :- DeserializeParameterEntry(input, offset);
      table := table[entry.0 := entry.1];
      i := i + 1;
    }
    r := Ok(table);
  }
}
