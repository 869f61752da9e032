# primate-radar packet decoding, modelled in Dafny

This project models the decoding core of primate-radar, a passive network reader for
an online game. The core takes the UDP payload of one Photon-protocol command and:

- reads the command header with a `BufferCursor`;
- routes the command by type (reliable, unreliable, fragment, other);
- reassembles fragmented messages in a `FragmentsHolderCache` of `FragmentsHolder`s;
- reads the message category and its parameter map, decoding each value with the
  Protocol16 deserializer;
- hands the parameter map to a builder registry, which turns it into one of the
  game packets of `GamePacketModels`.

The source code's form is kept throughout:

- `BufferCursor`, `FragmentsHolder`, `FragmentsHolderCache` and `PacketFactory` are
  classes. Their methods update fields under `modifies` clauses.
- The deserializer's loops are `while` loops with invariants.
- Builders and registries are functions.

Most methods are proved equal to a specification function of the bytes and the
cursor position. A specification function returns the result, either a value or the
JavaScript exception the code would throw, together with the cursor position the
code leaves behind. The methods that only move the cursor or update a holder or the
cache (`Seek`, `Copy`, `MoveCursorPosition`, the `FragmentsHolder` and
`FragmentsHolderCache` methods) state their new state directly in their `ensures`.
The properties are proved about the specification functions:

- encode/decode round trips for the values a reference encoder writes: every value
  that fits its width and count fields, with map values written in one chosen key
  order; and Dictionary, Hashtable, parameter-table and parameter-map bodies written
  from any list of entries, repeated keys included;
- width and signedness of the primitive reads;
- framing, validity and routing of commands;
- message categories and the layout of each kind of message;
- which builder a registry finds;
- "last write wins" for parameter maps and dictionaries;
- the fragment cache touching only its own sequence number;
- a message completing exactly on its last fragment, joined in arrival order.

Modules:

| file | module | models |
|---|---|---|
| bytes.dfy | `Bytes`, `Results` | bytes, big/little-endian values, reference encoders; the result type |
| buffer_cursor.dfy | `Cursor` | `BufferCursor` and the specification of each read |
| cursor_properties.dfy | `CursorProperties` | bounds, round trips and edge cases of the reads |
| protocol16.dfy | `Protocol16Types`, `Protocol16` | type codes, decoded values, decoding as functions |
| protocol16_deserializer.dfy | `Protocol16Deserializer` | `Protocol16Deserializer` as methods on a cursor |
| protocol16_properties.dfy | `Protocol16Encoding`, `Protocol16Properties` | a reference encoder and the decoder's properties |
| js_values.dfy | `JsValues` | the JavaScript operations builders apply to decoded values |
| maps.dfy | `Maps` | a map built by storing a list of entries in order |
| game_packets.dfy | `GamePacketModels` | packet kinds and protocol codes |
| event_factory.dfy | `EventGamePacketFactory` | the event builder registry and its builders |
| request_factory.dfy | `OperationRequestGamePacketFactory` | the operation-request registry |
| fragments.dfy | `Fragments` | `FragmentsHolder` and the state it keeps |
| fragments_cache.dfy | `FragmentsCache` | `FragmentsHolderCache` |
| packet_factory.dfy | `PacketFactory` | `PacketFactory` |
| packet_properties.dfy | `PacketProperties` | properties of framing, routing, categories, parameter maps, fragments |

## Behaviour of the code worth noting

Each of these behaviours of the code is stated by a lemma.

- **Fragment order.** A completed message is joined in the order its fragments
  arrived (a JavaScript `Map` iterates in insertion order), not in fragment-number
  order. See `Fragments.FreshDeliveries` and `Fragments.ArrivalOrderNotFragmentOrder`.
- **Unreliable commands.** `subarray(4)` does not skip a 4-byte prefix. It takes the
  first 4 bytes of the body as a cursor of their own, and only those 4 bytes are
  decoded. A body shorter than 4 bytes throws outside the `try`. See
  `PacketProperties.UnreliableSeesOnlyFourBytes` and
  `PacketProperties.UnreliableShortBodyThrows`.
- **Short commands.** A command length below 12 is accepted. The body is then empty,
  and a negative length moves the cursor back. See
  `PacketProperties.NegativeCommandLengthMovesBack`.
- **Event builders.** The builder for an event is looked up by parameter 252, not by
  the event code byte. The code byte only matters when it is 3, which forces
  parameter 252 to 3. See `PacketProperties.EventCodeByteIgnored` and
  `PacketProperties.EntityMoveUsesMoveBuilder`.
- **Signed counts.** The parameter count of `buildParameterMapFromBuffer` and the
  count of an IntegerArray are signed. A count with its top bit set gives an empty
  result. See `PacketProperties.LargeParameterCountIsEmpty` and
  `Protocol16Properties.IntegerArrayNegativeCount`.
- **Parameter tables.** `deserializeParameterTable` never updates its offset, so
  every entry skips 3 bytes before its key and 4 more before its tag. See
  `Protocol16Properties.SingleEntryParameterTable`.
- **Partial reads stay committed.** A single read that fails leaves the cursor where
  it was. A composite read that fails half-way keeps the advances it already made.
  Every specification function records that position.

## Model

| member | source | states |
|---|---|---|
| Bytes.Unsigned | src/utils/BufferCursor.ts:84-90 | the big-endian value of n bytes is below 256^n |
| Bytes.Signed | src/utils/BufferCursor.ts:80-82 | the two's-complement value of n bytes lies in [-256^n/2, 256^n/2), and is non-negative exactly when the unsigned value is below half the range |
| Bytes.Reversed | src/domain/factories/EventGamePacketFactory.ts:34-35 | a little-endian string is the big-endian string reversed, element by element |
| Bytes.UnsignedLE | src/domain/factories/EventGamePacketFactory.ts:34-35 | the little-endian value that `getFloat32(0, true)` sees is below 256^n |
| Bytes.EncodeUnsigned | src/utils/BufferCursor.ts:84-90 | a reference encoder: k bytes whose big-endian value is n |
| Bytes.EncodeUnsignedLE | src/domain/factories/EventGamePacketFactory.ts:34-35 | a reference encoder: k bytes whose little-endian value is n |
| Bytes.EncodeSigned | src/utils/BufferCursor.ts:80-82 | a reference encoder: k bytes whose two's-complement value is v |
| Bytes.UnsignedOfOneByte | src/utils/BufferCursor.ts:75-77 | readUInt8 of one byte is that byte |
| Bytes.UnsignedInjective | src/utils/BufferCursor.ts:84-90 | two strings of one length with equal unsigned values are equal |
| Cursor.TakeAt | src/utils/BufferCursor.ts:13-23 | a read never moves the cursor backwards or past the buffer, and its only failure is a RangeError |
| Cursor.UnsignedAt | src/utils/BufferCursor.ts:75-90 | readUInt8/16/32 also return a value below 256^size |
| Cursor.SignedAt | src/utils/BufferCursor.ts:80-82 | readInt16BE/readInt32BE stay inside the buffer and fail only with a RangeError |
| Cursor.RegionAt | src/utils/BufferCursor.ts:45-60 | subarray and toString fail only with a RangeError (from seek) |
| Cursor.RestFrom | src/utils/BufferCursor.ts:33-37 | `getBuffer` succeeds exactly when the cursor is inside the buffer, and then copies the bytes from the cursor to the end, one for one; otherwise a RangeError |
| Cursor.BufferCursor.constructor | src/utils/BufferCursor.ts:7-11 | a new cursor is at 0 over the given bytes, with its length fixed |
| Cursor.BufferCursor.MoveCursorPosition | src/utils/BufferCursor.ts:29-31 | the cursor moves by the step without any check |
| Cursor.BufferCursor.ReadSafelyAndMoveCursorPosition | src/utils/BufferCursor.ts:13-23 | checks cursor + step against the length before reading, and moves only on success |
| Cursor.BufferCursor.Seek | src/utils/BufferCursor.ts:38-43 | succeeds exactly for 0 <= pos <= length (otherwise RangeError) and then sets the cursor |
| Cursor.BufferCursor.Subarray | src/utils/BufferCursor.ts:45-52 | a fresh cursor at 0 over the bytes up to the end; this cursor moves to the end |
| Cursor.BufferCursor.ToString | src/utils/BufferCursor.ts:54-60 | the bytes up to the end, and the cursor moves to the end |
| Cursor.BufferCursor.Copy | src/utils/BufferCursor.ts:62-73 | writes source[start..end] at the cursor exactly when it fits, leaves the rest of the buffer and the length unchanged, moves past the copy; falsy bounds take their defaults |
| Cursor.BufferCursor.ReadUInt8 | src/utils/BufferCursor.ts:75-77 | one unsigned byte at cursor + offset; the cursor moves 1 + offset |
| Cursor.BufferCursor.ReadInt16BE | src/utils/BufferCursor.ts:80-82 | a signed big-endian int16 at cursor + offset; the cursor moves 2 + offset |
| Cursor.BufferCursor.ReadUInt16BE | src/utils/BufferCursor.ts:84-86 | an unsigned big-endian uint16; the cursor moves 2 + offset |
| Cursor.BufferCursor.ReadUInt32BE | src/utils/BufferCursor.ts:88-90 | an unsigned big-endian uint32; the cursor moves 4 + offset |
| Cursor.BufferCursor.ReadInt32BE | src/utils/BufferCursor.ts:93-95 | a signed big-endian int32; the cursor moves 4 + offset |
| Cursor.BufferCursor.ReadFloatBE | src/utils/BufferCursor.ts:98-100 | the 4-byte pattern of a float; the cursor moves 4 + offset |
| Cursor.BufferCursor.ReadDoubleBE | src/utils/BufferCursor.ts:103-105 | the 8-byte pattern of a double; the cursor moves 8 + offset |
| CursorProperties.TakeAtBounds | src/utils/BufferCursor.ts:13-23 | a read succeeds iff cursor + offset + size fits: it returns exactly those bytes and moves past them; otherwise RangeError with the cursor unchanged |
| CursorProperties.TakeAllContiguous | src/utils/BufferCursor.ts:13-23 | consecutive reads succeed iff their total fits, and then see consecutive bytes |
| CursorProperties.UnsignedAtOfEncoding | src/utils/BufferCursor.ts:84-90 | reading an encoded unsigned value gives it back and moves past it |
| CursorProperties.UnsignedAtInverse | src/utils/BufferCursor.ts:84-90 | the bytes an unsigned read succeeds on are the encoding of what it returns |
| CursorProperties.SignedAtOfEncoding | src/utils/BufferCursor.ts:93-95 | reading an encoded two's-complement value gives it back and moves past it |
| CursorProperties.SignedInjective | src/utils/BufferCursor.ts:93-95 | two strings of one length with equal signed values are equal |
| CursorProperties.SignedAtInverse | src/utils/BufferCursor.ts:93-95 | the bytes a signed read succeeds on are the encoding of what it returns |
| CursorProperties.SignedNegativeWhenTopBitSet | src/utils/BufferCursor.ts:93-95 | a leading byte >= 128 makes a signed read negative |
| CursorProperties.UnsignedAtLeastLeadingByte | src/utils/BufferCursor.ts:84-90 | the leading byte weighs 256^(n-1) |
| CursorProperties.RegionAtWithLength | src/utils/BufferCursor.ts:45-52 | with length n >= 0: succeeds iff cursor + n fits, giving those n bytes and moving past them; on failure the cursor stays |
| CursorProperties.RegionAtOfBytes | src/utils/BufferCursor.ts:45-52 | a region as long as the bytes at the cursor reads exactly those bytes |
| CursorProperties.RegionAtRest | src/utils/BufferCursor.ts:45-52 | with no length: the rest of the buffer, and the cursor moves to its end |
| CursorProperties.RegionAtNegativeLength | src/utils/BufferCursor.ts:45-52 | a negative length inside the buffer is accepted: the region is empty and the cursor moves back |
| Protocol16Types.FromCode | src/utils/Protocol16Deserializer.ts:8-28 | a recognised code is the code of the tag it names |
| Protocol16Types.FromCodeOfCode | src/utils/Protocol16Deserializer.ts:8-28 | every tag is recognised from its own code, so the codes are distinct |
| Protocol16.DecodeByte | src/utils/Protocol16Deserializer.ts:76-78 | reads forward inside the buffer; fails only with a RangeError |
| Protocol16.DecodeBoolean | src/utils/Protocol16Deserializer.ts:80-82 | reads forward inside the buffer; fails only with a RangeError |
| Protocol16.DecodeInteger | src/utils/Protocol16Deserializer.ts:84-86 | reads forward inside the buffer; fails only with a RangeError |
| Protocol16.DecodeShort | src/utils/Protocol16Deserializer.ts:97-99 | reads forward inside the buffer; fails only with a RangeError |
| Protocol16.DecodeDouble | src/utils/Protocol16Deserializer.ts:101-103 | reads forward inside the buffer; fails only with a RangeError |
| Protocol16.DecodeLong | src/utils/Protocol16Deserializer.ts:105-109 | reads forward inside the buffer; fails only with a RangeError |
| Protocol16.DecodeFloat | src/utils/Protocol16Deserializer.ts:111-113 | reads forward inside the buffer; fails only with a RangeError |
| Protocol16.DecodeString | src/utils/Protocol16Deserializer.ts:115-118 | reads forward inside the buffer; fails only with a RangeError |
| Protocol16.DecodeByteArray | src/utils/Protocol16Deserializer.ts:120-123 | reads forward inside the buffer; fails only with a RangeError |
| Protocol16.IntegerElements | src/utils/Protocol16Deserializer.ts:88-95 | the integer loop reads forward and fails only with a RangeError |
| Protocol16.DecodeIntegerArray | src/utils/Protocol16Deserializer.ts:88-95 | reads forward inside the buffer; fails only with a RangeError |
| Protocol16.StringElements | src/utils/Protocol16Deserializer.ts:136-143 | the string loop reads forward and fails only with a RangeError |
| Protocol16.DecodeStringArray | src/utils/Protocol16Deserializer.ts:136-143 | reads forward inside the buffer; fails only with a RangeError |
| Protocol16.DecodeValue | src/utils/Protocol16Deserializer.ts:32-74 | deserialize reads forward inside the buffer, and its "not implemented" error only ever names a code outside the enum |
| Protocol16.ArrayElements | src/utils/Protocol16Deserializer.ts:128-133 | the Array loop keeps one element per turn (count of them after acc) and reads forward |
| Protocol16.ArrayElement | src/utils/Protocol16Deserializer.ts:130 | one Array element reads forward; unknown-code errors only |
| Protocol16.DecodeArray | src/utils/Protocol16Deserializer.ts:125-134 | reads forward; unknown-code errors only for codes outside the enum |
| Protocol16.ObjectArrayElements | src/utils/Protocol16Deserializer.ts:147-152 | the ObjectArray loop keeps one element per turn and reads forward |
| Protocol16.TaggedValue | src/utils/Protocol16Deserializer.ts:149-150 | a tag byte and the value decoded with it read forward; unknown-code errors only |
| Protocol16.DecodeObjectArray | src/utils/Protocol16Deserializer.ts:145-153 | reads forward; unknown-code errors only for codes outside the enum |
| Protocol16.SlotTypeCode | src/utils/Protocol16Deserializer.ts:170-171 | the inline slot tag read reads forward and fails only with a RangeError |
| Protocol16.SlotValue | src/utils/Protocol16Deserializer.ts:170-171 | one dictionary slot (its tag, then the value) reads forward; unknown-code errors only |
| Protocol16.DictionaryEntry | src/utils/Protocol16Deserializer.ts:170-172 | a key and a value, each behind its slot tag, read forward |
| Protocol16.DictionaryElements | src/utils/Protocol16Deserializer.ts:167-175 | the dictionary loop reads forward; unknown-code errors only |
| Protocol16.DecodeHashtable | src/utils/Protocol16Deserializer.ts:155-158 | reads forward; unknown-code errors only |
| Protocol16.DecodeDictionary | src/utils/Protocol16Deserializer.ts:160-165 | reads forward; unknown-code errors only |
| Protocol16.ParameterEntry | src/utils/Protocol16Deserializer.ts:197-200 | one table entry at the loop's offset reads forward |
| Protocol16.ParameterTableEntries | src/utils/Protocol16Deserializer.ts:196-201 | the table loop reads forward; unknown-code errors only |
| Protocol16.DecodeParameterTable | src/utils/Protocol16Deserializer.ts:191-203 | reads forward; unknown-code errors only |
| Protocol16.DecodeOperationRequest | src/utils/Protocol16Deserializer.ts:177-181 | reads forward; unknown-code errors only |
| Protocol16.DecodeOperationResponse | src/utils/Protocol16Deserializer.ts:183-189 | reads forward; unknown-code errors only |
| Protocol16Deserializer.Deserialize | src/utils/Protocol16Deserializer.ts:32-74 | what deserialize returns and where it leaves the cursor are DecodeValue's, for every type code |
| Protocol16Deserializer.DeserializeByte | src/utils/Protocol16Deserializer.ts:76-78 | result and cursor are DecodeByte's |
| Protocol16Deserializer.DeserializeBoolean | src/utils/Protocol16Deserializer.ts:80-82 | result and cursor are DecodeBoolean's |
| Protocol16Deserializer.DeserializeInteger | src/utils/Protocol16Deserializer.ts:84-86 | result and cursor are DecodeInteger's |
| Protocol16Deserializer.DeserializeIntegerArray | src/utils/Protocol16Deserializer.ts:88-95 | the loop's result and cursor are DecodeIntegerArray's, including a throw half-way |
| Protocol16Deserializer.DeserializeShort | src/utils/Protocol16Deserializer.ts:97-99 | result and cursor are DecodeShort's |
| Protocol16Deserializer.DeserializeDouble | src/utils/Protocol16Deserializer.ts:101-103 | result and cursor are DecodeDouble's |
| Protocol16Deserializer.DeserializeLong | src/utils/Protocol16Deserializer.ts:105-109 | reading at tell() and seeking 8 on is DecodeLong |
| Protocol16Deserializer.DeserializeFloat | src/utils/Protocol16Deserializer.ts:111-113 | result and cursor are DecodeFloat's |
| Protocol16Deserializer.DeserializeString | src/utils/Protocol16Deserializer.ts:115-118 | result and cursor are DecodeString's (length 0 reads nothing more) |
| Protocol16Deserializer.DeserializeByteArray | src/utils/Protocol16Deserializer.ts:120-123 | the sub-cursor's bytes and the cursor are DecodeByteArray's |
| Protocol16Deserializer.DeserializeArray | src/utils/Protocol16Deserializer.ts:125-134 | the loop's result and cursor are DecodeArray's |
| Protocol16Deserializer.DeserializeStringArray | src/utils/Protocol16Deserializer.ts:136-143 | result and cursor are DecodeStringArray's |
| Protocol16Deserializer.DeserializeStrings | src/utils/Protocol16Deserializer.ts:138-142 | the loop over size strings ends where StringElements does, with its result |
| Protocol16Deserializer.StringElementsUnfold | src/utils/Protocol16Deserializer.ts:139-141 | one turn of the string loop: the string read is appended and one fewer remains |
| Protocol16Deserializer.StringElementsDone | src/utils/Protocol16Deserializer.ts:139 | the loop ends with what it collected once no string remains |
| Protocol16Deserializer.StringElementsFail | src/utils/Protocol16Deserializer.ts:140 | a string that throws ends the loop with its error and position |
| Protocol16Deserializer.DeserializeObjectArray | src/utils/Protocol16Deserializer.ts:145-153 | the loop's result and cursor are DecodeObjectArray's |
| Protocol16Deserializer.DeserializeHashtable | src/utils/Protocol16Deserializer.ts:155-158 | result and cursor are DecodeHashtable's |
| Protocol16Deserializer.DeserializeDictionary | src/utils/Protocol16Deserializer.ts:160-165 | result and cursor are DecodeDictionary's |
| Protocol16Deserializer.DeserializeDictionaryElements | src/utils/Protocol16Deserializer.ts:167-175 | the loop's result and cursor are DictionaryElements' from an empty map |
| Protocol16Deserializer.DeserializeDictionaryEntry | src/utils/Protocol16Deserializer.ts:170-172 | result and cursor are DictionaryEntry's |
| Protocol16Deserializer.DeserializeSlotTypeCode | src/utils/Protocol16Deserializer.ts:170-171 | the declared tag, or an inline byte for 0 and 42, as SlotTypeCode |
| Protocol16Deserializer.DeserializeOperationRequest | src/utils/Protocol16Deserializer.ts:177-181 | result and cursor are DecodeOperationRequest's |
| Protocol16Deserializer.DeserializeOperationResponse | src/utils/Protocol16Deserializer.ts:183-189 | result and cursor are DecodeOperationResponse's |
| Protocol16Deserializer.DeserializeParameterEntry | src/utils/Protocol16Deserializer.ts:197-200 | result and cursor are ParameterEntry's at the given offset |
| Protocol16Deserializer.DeserializeParameterTable | src/utils/Protocol16Deserializer.ts:191-203 | the loop's result and cursor are DecodeParameterTable's |
| Protocol16Encoding.TagOf | src/utils/Protocol16Deserializer.ts:8-28 | every value is written with a byte-sized code that deserialize recognises |
| Protocol16Encoding.ArrayTag | src/utils/Protocol16Deserializer.ts:125-127 | an Array's shared element tag fits in one byte |
| Protocol16Properties.InlineSentinelDecodesToNull | src/utils/Protocol16Deserializer.ts:34-36 | tags 0 and 42 give null and read nothing |
| Protocol16Properties.UnknownTagIff | src/utils/Protocol16Deserializer.ts:71-72 | deserialize throws "not implemented" exactly for codes outside the enum, before reading |
| Protocol16Properties.PrimitiveWidths | src/utils/Protocol16Deserializer.ts:76-113 | a primitive succeeds iff its width fits and then reads exactly that width; a failure is a RangeError with the cursor unchanged |
| Protocol16Properties.BooleanIsNonZero | src/utils/Protocol16Deserializer.ts:80-82 | a Boolean is true iff its byte is nonzero |
| Protocol16Properties.NumericSignedness | src/utils/Protocol16Deserializer.ts:84-109 | Short is unsigned; Integer and Long are two's complement |
| Protocol16Properties.IntegerArrayNegativeCount | src/utils/Protocol16Deserializer.ts:88-95 | a count with its top bit set gives an empty array after the 4 count bytes |
| Protocol16Properties.EmptyString | src/utils/Protocol16Deserializer.ts:115-118 | a zero length gives "" after 2 bytes |
| Protocol16Properties.StringRoundTrip | src/utils/Protocol16Deserializer.ts:115-118 | decoding an encoded string gives it back and reads exactly its encoding |
| Protocol16Properties.IntegersRoundTrip | src/utils/Protocol16Deserializer.ts:91-93 | the integer loop reads back encoded integers in order |
| Protocol16Properties.IntegerElementStep | src/utils/Protocol16Deserializer.ts:91-93 | one turn of the integer loop over an encoding |
| Protocol16Properties.StringsRoundTrip | src/utils/Protocol16Deserializer.ts:139-141 | the string loop reads back encoded strings in order |
| Protocol16Properties.StringElementStep | src/utils/Protocol16Deserializer.ts:139-141 | one turn of the string loop over an encoding |
| Protocol16Properties.DecodeValueRoundTrip | src/utils/Protocol16Deserializer.ts:32-74 | decoding the encoding of any encodable value under its tag gives the value back and reads exactly its bytes |
| Protocol16Properties.ByteRoundTrip | src/utils/Protocol16Deserializer.ts:76-78 | Byte round trip |
| Protocol16Properties.BooleanRoundTrip | src/utils/Protocol16Deserializer.ts:80-82 | Boolean round trip |
| Protocol16Properties.ShortRoundTrip | src/utils/Protocol16Deserializer.ts:97-99 | Short round trip |
| Protocol16Properties.IntegerRoundTrip | src/utils/Protocol16Deserializer.ts:84-86 | Integer round trip |
| Protocol16Properties.LongRoundTrip | src/utils/Protocol16Deserializer.ts:105-109 | Long round trip |
| Protocol16Properties.FloatRoundTrip | src/utils/Protocol16Deserializer.ts:111-113 | Float bit-pattern round trip |
| Protocol16Properties.DoubleRoundTrip | src/utils/Protocol16Deserializer.ts:101-103 | Double bit-pattern round trip |
| Protocol16Properties.StringValueRoundTrip | src/utils/Protocol16Deserializer.ts:53-54 | String value round trip |
| Protocol16Properties.ByteArrayRoundTrip | src/utils/Protocol16Deserializer.ts:120-123 | ByteArray round trip: uint32 length, then the bytes |
| Protocol16Properties.IntegerArrayRoundTrip | src/utils/Protocol16Deserializer.ts:45-46 | IntegerArray value round trip |
| Protocol16Properties.IntegerArrayPayloadRoundTrip | src/utils/Protocol16Deserializer.ts:88-95 | deserializeIntegerArray round trip |
| Protocol16Properties.StringArrayRoundTrip | src/utils/Protocol16Deserializer.ts:136-143 | StringArray round trip |
| Protocol16Properties.ArrayRoundTrip | src/utils/Protocol16Deserializer.ts:61-62 | Array value round trip |
| Protocol16Properties.ArrayPayloadRoundTrip | src/utils/Protocol16Deserializer.ts:125-134 | deserializeArray round trip |
| Protocol16Properties.ArrayHeaderRoundTrip | src/utils/Protocol16Deserializer.ts:126-127 | an Array's count and shared tag are read back |
| Protocol16Properties.ObjectArrayRoundTrip | src/utils/Protocol16Deserializer.ts:69-70 | ObjectArray value round trip |
| Protocol16Properties.ObjectArrayPayloadRoundTrip | src/utils/Protocol16Deserializer.ts:145-153 | deserializeObjectArray round trip |
| Protocol16Properties.ArrayElementsRoundTrip | src/utils/Protocol16Deserializer.ts:129-132 | the Array loop reads back encoded bodies with the shared tag, in order |
| Protocol16Properties.ArrayElementStep | src/utils/Protocol16Deserializer.ts:129-132 | one turn of the Array loop over an encoding |
| Protocol16Properties.ArrayElementsUnfold | src/utils/Protocol16Deserializer.ts:129-132 | one turn of the Array loop once its element is known |
| Protocol16Properties.ObjectElementsRoundTrip | src/utils/Protocol16Deserializer.ts:148-151 | the ObjectArray loop reads back tagged elements in order |
| Protocol16Properties.ObjectElementStep | src/utils/Protocol16Deserializer.ts:148-151 | one turn of the ObjectArray loop over an encoding |
| Protocol16Properties.ObjectArrayElementsUnfold | src/utils/Protocol16Deserializer.ts:148-151 | one turn of the ObjectArray loop once its element is known |
| Protocol16Properties.ObjectElementRoundTrip | src/utils/Protocol16Deserializer.ts:149-150 | a tag byte and a body decode to the value |
| Protocol16Properties.TaggedHead | src/utils/Protocol16Deserializer.ts:149 | the tag byte of an element is read back |
| Protocol16Properties.DictionaryElementsUpsert | src/utils/Protocol16Deserializer.ts:167-175 | the dictionary is its entries stored in order, so a repeated key keeps the later value |
| Protocol16Properties.SentinelTagsAgree | src/utils/Protocol16Deserializer.ts:170-171 | declared tags 0 and 42 are interchangeable |
| Protocol16Properties.DictionaryWithInlineTagsIsHashtable | src/utils/Protocol16Deserializer.ts:155-165 | a Dictionary with sentinel tags reads as a Hashtable after its two tag bytes |
| Protocol16Properties.EmptyParameterTable | src/utils/Protocol16Deserializer.ts:191-203 | count 0 reads one skipped byte and two count bytes |
| Protocol16Properties.SingleEntryParameterTable | src/utils/Protocol16Deserializer.ts:191-203 | a one-entry table: key at cursor+6, tag at cursor+11, value from cursor+12 |
| Protocol16Properties.SmallCount | src/utils/Protocol16Deserializer.ts:192 | readUInt16BE(1) of 0, n is n, and the cursor moves 3 |
| Protocol16Properties.OneParameterEntry | src/utils/Protocol16Deserializer.ts:196-201 | a loop of one entry stores that entry |
| Protocol16Properties.SingleParameterEntry | src/utils/Protocol16Deserializer.ts:197-199 | an entry is 3 skipped bytes, key, 4 skipped bytes, tag, value |
| Protocol16Properties.OperationRequestLayout | src/utils/Protocol16Deserializer.ts:177-181 | an OperationRequest is its code byte and the parameter table after it |
| Protocol16Properties.OperationResponseLayout | src/utils/Protocol16Deserializer.ts:183-189 | an OperationResponse is its code byte, a uint16 return code, a debug message behind its own tag, then the parameter table; a buffer too short for the first three bytes is a RangeError, and a failing debug message or table gives its error and position |
| Protocol16Properties.ParameterTableRoundTrip | src/utils/Protocol16Deserializer.ts:191-203 | a parameter table written from any list of entries (each 3 skipped bytes, id, 4 skipped bytes, tag, body) decodes to the map those entries build, a later id overriding an earlier one, and reads exactly the table |
| Protocol16Properties.TableEntriesRoundTrip | src/utils/Protocol16Deserializer.ts:196-201 | the table loop over written entries stores them one after another into the map it started from |
| Protocol16Properties.TableEntryStep | src/utils/Protocol16Deserializer.ts:196-201 | one turn of the table loop over written entries, and where the rest starts |
| Protocol16Properties.TableEntryRoundTrip | src/utils/Protocol16Deserializer.ts:197-200 | one written table entry reads back as its id and value |
| Protocol16Properties.TableHead | src/utils/Protocol16Deserializer.ts:192 | the skipped byte and the uint16 count of a written table read back |
| Protocol16Properties.TableOfRoundTrip | src/utils/Protocol16Deserializer.ts:191-203 | the table of an operation value reads back as its parameters |
| Protocol16Properties.ParameterEntriesRoundTrip | src/utils/Protocol16Deserializer.ts:196-201 | the table loop reads back an operation value's parameters under the listed ids |
| Protocol16Properties.ParameterEntryStep | src/utils/Protocol16Deserializer.ts:196-201 | one turn of that loop, and where the rest starts |
| Protocol16Properties.ParameterTableEntriesUnfold | src/utils/Protocol16Deserializer.ts:196-201 | one turn of the table loop once its entry is known: the entry is set and one fewer remains |
| Protocol16Properties.OperationRequestValueRoundTrip | src/utils/Protocol16Deserializer.ts:65-66 | an OperationRequest value decodes back under its tag |
| Protocol16Properties.OperationRequestPayloadRoundTrip | src/utils/Protocol16Deserializer.ts:177-181 | an OperationRequest reads back from its code byte and its table |
| Protocol16Properties.OperationResponseValueRoundTrip | src/utils/Protocol16Deserializer.ts:63-64 | an OperationResponse value decodes back under its tag |
| Protocol16Properties.OperationResponsePayloadRoundTrip | src/utils/Protocol16Deserializer.ts:183-189 | an OperationResponse reads back from its code, return code, tagged debug message and table |
| Protocol16Properties.DictionaryRoundTrip | src/utils/Protocol16Deserializer.ts:160-175 | a Dictionary written with any declared key and value tags and any list of entries decodes to the map those entries build, a later key overriding an earlier one, and reads exactly its bytes |
| Protocol16Properties.HashtableRoundTrip | src/utils/Protocol16Deserializer.ts:155-158 | a Hashtable written from any list of entries, each slot behind its own tag, decodes to the map those entries build |
| Protocol16Properties.EntriesRoundTrip | src/utils/Protocol16Deserializer.ts:167-175 | the dictionary loop over written entries stores them one after another into the map it started from |
| Protocol16Properties.EntryStep | src/utils/Protocol16Deserializer.ts:169-173 | one turn of the dictionary loop over written entries, and where the rest starts |
| Protocol16Properties.SlotPairRoundTrip | src/utils/Protocol16Deserializer.ts:170-171 | a key slot and a value slot written back to back read back as the entry |
| Protocol16Properties.SlotRoundTrip | src/utils/Protocol16Deserializer.ts:170-171 | a written slot, tag inline behind a sentinel or declared, reads back as its value |
| Protocol16Properties.SlotBytes | src/utils/Protocol16Deserializer.ts:170-171 | a slot's tag is read inline exactly when the declared tag is a sentinel (0 or 42) and is the declared one otherwise |
| Protocol16Properties.DictionaryHead | src/utils/Protocol16Deserializer.ts:161-163 | the key tag, value tag and uint16 count of a written Dictionary read back |
| Protocol16Properties.DictionaryValueRoundTrip | src/utils/Protocol16Deserializer.ts:59-60 | a Dictionary value decodes back under its tag |
| Protocol16Properties.DictionaryPayloadRoundTrip | src/utils/Protocol16Deserializer.ts:160-165 | a Dictionary value reads back from two sentinel tags, its count and its entries in the chosen order |
| Protocol16Properties.MapEntriesRoundTrip | src/utils/Protocol16Deserializer.ts:167-175 | the dictionary loop reads back a Dictionary value's entries under the listed keys |
| Protocol16Properties.MapEntryStep | src/utils/Protocol16Deserializer.ts:169-173 | one turn of that loop, and where the rest starts |
| Protocol16Properties.MapEntryHead | src/utils/Protocol16Deserializer.ts:170-172 | one entry of a Dictionary value reads back as itself |
| Protocol16Properties.DictionaryElementsUnfold | src/utils/Protocol16Deserializer.ts:169-173 | one turn of the dictionary loop once its entry is known: the entry is set and one fewer remains |
| Protocol16Properties.DictionaryEntryOfSlots | src/utils/Protocol16Deserializer.ts:170-172 | an entry is its key slot, then its value slot |
| JsValues.Get | src/domain/factories/PacketFactory.ts:143 | `Map.get` is the stored value when the key is present, undefined otherwise |
| JsValues.ElementsOf | src/domain/factories/EventGamePacketFactory.ts:89-93 | exactly the array-like values have elements |
| JsValues.Nth | src/domain/factories/EventGamePacketFactory.ts:95-99 | indexing a sequence gives its element, or undefined past the end |
| JsValues.SpreadAgreesWithIndex | src/domain/factories/EventGamePacketFactory.ts:89-99 | spread, `at` and indexing see the same elements |
| JsValues.AtVersusIndex | src/domain/factories/EventGamePacketFactory.ts:59-60 | `?.at` and indexing differ exactly on undefined/null and on scalars |
| JsValues.ZeroBytes | src/domain/factories/EventGamePacketFactory.ts:34 | `new Uint8Array(n)` is n zero bytes, and a negative n is a RangeError |
| JsValues.At | src/domain/factories/EventGamePacketFactory.ts:59-60 | `?.at(i)` throws exactly on values with no elements other than undefined and null; any element it finds is the i-th |
| JsValues.Index | src/domain/factories/EventGamePacketFactory.ts:93-98 | indexing throws a TypeError exactly on undefined and null; any element it finds is the i-th |
| JsValues.Spread | src/domain/factories/EventGamePacketFactory.ts:89-93 | spreading succeeds exactly on arrays and Buffers and gives their elements |
| JsValues.NumericValue | src/domain/factories/EventGamePacketFactory.ts:104-111 | a comparison sees NaN exactly for undefined and plain objects; strings, arrays and floats are not modelled |
| JsValues.Uint8ArrayFrom | src/domain/factories/EventGamePacketFactory.ts:34-35 | `new Uint8Array` throws a TypeError exactly on a bigint and a RangeError exactly on a negative number, and a number n gives n zero bytes |
| JsValues.Uint8ArrayOfArrays | src/domain/factories/EventGamePacketFactory.ts:34-35 | a Buffer passes unchanged; a number array keeps one byte per element, congruent modulo 256 |
| JsValues.Stringified | src/domain/factories/EventGamePacketFactory.ts:51 | `toString` throws a TypeError exactly on undefined or null; it succeeds exactly on numbers, bigints, booleans, strings and plain objects, always with a string; a string is its own form and a number or bigint gives the decimal form of its value |
| JsValues.Digits | src/domain/factories/EventGamePacketFactory.ts:51 | the decimal digits of a non-negative integer are ASCII digits, with a leading "0" only for zero |
| JsValues.DigitsRoundTrip | src/domain/factories/EventGamePacketFactory.ts:51 | reading the digits back gives the number |
| JsValues.DecimalString | src/domain/factories/EventGamePacketFactory.ts:51 | the decimal form starts with a minus sign exactly for negative integers |
| JsValues.DecimalStringInjective | src/domain/factories/EventGamePacketFactory.ts:51 | two integers have the same decimal form exactly when they are equal |
| JsValues.StringifiedForgetsWidth | src/domain/factories/EventGamePacketFactory.ts:51 | a byte, short, integer or bigint n and the string of n's digits all give the same id string, and two integers give the same string only when equal |
| Maps.KeysOf | src/domain/factories/PacketFactory.ts:162-166 | every entry's key is among the keys |
| Maps.UpsertedSnoc | src/domain/factories/PacketFactory.ts:165 | one more `set` at the end is one more map update |
| Maps.UpsertedKeys | src/domain/factories/PacketFactory.ts:162-166 | the map holds exactly the old keys and the entries' keys |
| Maps.UpsertedLastWins | src/domain/factories/PacketFactory.ts:162-166 | an entry with no later entry for its key decides that key |
| Maps.UpsertedUntouched | src/domain/factories/PacketFactory.ts:162-166 | a key no entry mentions keeps its old value |
| GamePacketModels.DefaultUnhandledGameEvent | src/domain/models/GamePacketModels.ts:29-34 | an UnhandledGameEvent without arguments has an empty map and type OTHER |
| GamePacketModels.GamePacketsAreData | src/domain/models/GamePacketModels.ts:4-15 | every game packet is DATA, and only game packets and a bare DATA packet are |
| GamePacketModels.GamePacketTypeIdentifiesKind | src/domain/models/GamePacketModels.ts:17-134 | each packet class passes its own GamePacketType, so the type identifies the class |
| GamePacketModels.PhotonCommandTypeOf | src/domain/models/GamePacketModels.ts:148-154 | exactly the codes 5..9 are command types, OTHER_TYPE being 9 |
| GamePacketModels.PhotonCommandTypeCodes | src/domain/models/GamePacketModels.ts:148-154 | each command type is found from its own code |
| GamePacketModels.MessageTypeOf | src/domain/models/GamePacketModels.ts:156-161 | exactly 2, 3, 4 and 7 are message types |
| GamePacketModels.MessageTypeCodes | src/domain/models/GamePacketModels.ts:156-161 | each message type is found from its own code |
| EventGamePacketFactory.FindBuilderFunctionByEventCode | src/domain/factories/EventGamePacketFactory.ts:28-30 | a lookup fails only for a float or double code, whose value is not modelled |
| EventGamePacketFactory.Lookup | src/domain/factories/EventGamePacketFactory.ts:18-30 | a builder is found exactly for a registered code, and it is that code's builder |
| EventGamePacketFactory.RegistryCoverage | src/domain/factories/EventGamePacketFactory.ts:18-26 | seven of the nine event codes have builders; random dungeon and damage have none |
| EventGamePacketFactory.RegistryIsInjective | src/domain/factories/EventGamePacketFactory.ts:18-26 | no builder is registered under two codes |
| EventGamePacketFactory.LookupIgnoresNumericWidth | src/domain/factories/EventGamePacketFactory.ts:28-30 | a code decoded as byte, short or int finds the same builder; a bigint or a missing code finds none |
| EventGamePacketFactory.BuildGameEventOnMove | src/domain/factories/EventGamePacketFactory.ts:32-52 | succeeds iff parameter 1 gives at least 17 bytes and parameter 0 has a string form; the id is that string form (`entityId.toString()`) |
| EventGamePacketFactory.OnMoveReadsLittleEndianPositions | src/domain/factories/EventGamePacketFactory.ts:33-51 | the positions are the little-endian floats at bytes 9 and 13 of parameter 1; the id is parameter 0's string form, or its toString error |
| EventGamePacketFactory.OnMoveRejectsShortBuffers | src/domain/factories/EventGamePacketFactory.ts:34-35 | fewer than 17 bytes give a RangeError |
| EventGamePacketFactory.BuildGameEventUserLeft | src/domain/factories/EventGamePacketFactory.ts:54-56 | always succeeds; the id is parameter 0 |
| EventGamePacketFactory.BuildGameEventOnMobAppears | src/domain/factories/EventGamePacketFactory.ts:58-64 | succeeds iff `at` works on parameter 7; id 0; rarity is parameter 33 and enchant parameter 19, in the constructor's order |
| EventGamePacketFactory.BuildGameEventOnHarvestableAppears | src/domain/factories/EventGamePacketFactory.ts:66-77 | succeeds iff `at` works on parameter 8; tier 0 and type OTHER are fixed; units from 10, enchant from 11 |
| EventGamePacketFactory.BuildGameEventOnSystemBuildingAppears | src/domain/factories/EventGamePacketFactory.ts:79-84 | succeeds iff `at` works on parameter 1; id 0, name 3 |
| EventGamePacketFactory.BuildGameEventUserEnter | src/domain/factories/EventGamePacketFactory.ts:113-117 | succeeds iff `at` works on parameter 14; id 0 |
| EventGamePacketFactory.PositionPairs | src/domain/factories/EventGamePacketFactory.ts:59-60 | position builders take an array's first two elements in order |
| EventGamePacketFactory.MissingPositionsAreUndefined | src/domain/factories/EventGamePacketFactory.ts:113-117 | a missing position parameter gives undefined coordinates, not a throw |
| EventGamePacketFactory.BuildGameEventOnHarvestableListAppears | src/domain/factories/EventGamePacketFactory.ts:87-102 | succeeds iff parameters 0, 4, 1 and 2 are iterable and, for every id index k, position 2k can be indexed and type number k can be compared; the list is then the per-id list built from the spread parameters, one harvestable per id, in order |
| EventGamePacketFactory.HarvestableList | src/domain/factories/EventGamePacketFactory.ts:94-100 | the i-th harvestable has the i-th id, positions 2i and 2i+1, the i-th tier, units and type, and enchant 0; it fails exactly when some id's position or type number throws, with a TypeError exactly when the positions are undefined or null |
| EventGamePacketFactory.EmptyHarvestableList | src/domain/factories/EventGamePacketFactory.ts:87-102 | no ids give an empty list even when positions are missing |
| EventGamePacketFactory.MissingPositionsThrow | src/domain/factories/EventGamePacketFactory.ts:95 | with an id, missing positions throw a TypeError |
| EventGamePacketFactory.HarvestableTypeRanges | src/domain/factories/EventGamePacketFactory.ts:104-111 | 0-5 log, 6-10 rock, 11-14 fiber, 15-22 hide, 23-27 ore, and everything else (NaN included) OTHER, in both directions |
| EventGamePacketFactory.NullTypeNumberIsLog | src/domain/factories/EventGamePacketFactory.ts:104-105 | null compares as 0 and is a log; undefined is OTHER |
| EventGamePacketFactory.Build | src/domain/factories/EventGamePacketFactory.ts:18-26 | every builder produces the packet type its registry entry stands for |
| OperationRequestGamePacketFactory.FindBuilderFunctionByEventCode | src/domain/factories/OperationRequestGamePacketFactory.ts:15-17 | a lookup fails only for a float or double code |
| OperationRequestGamePacketFactory.Lookup | src/domain/factories/OperationRequestGamePacketFactory.ts:11-17 | a builder is found exactly for a registered code |
| OperationRequestGamePacketFactory.OnlyUserMoveHasABuilder | src/domain/factories/OperationRequestGamePacketFactory.ts:11-13 | only 21 (of any integer width) finds a builder |
| OperationRequestGamePacketFactory.BuildOperationRequestOnMoveUser | src/domain/factories/OperationRequestGamePacketFactory.ts:19-24 | succeeds iff `at` works on parameter 1, and gives a SELF_USER_MOVE packet |
| OperationRequestGamePacketFactory.SelfMovePosition | src/domain/factories/OperationRequestGamePacketFactory.ts:20-21 | the position is parameter 1's first two elements; a missing parameter gives undefined |
| OperationRequestGamePacketFactory.Build | src/domain/factories/OperationRequestGamePacketFactory.ts:11-21 | the registered builder succeeds exactly when `at` on parameter 1 does, and builds the player's own movement |
| Fragments.NewAssembly | src/domain/models/FragmentsHolder.ts:8-12 | a new holder keeps exactly its first fragment |
| Fragments.WithFragmentEffect | src/domain/models/FragmentsHolder.ts:18-21 | addFragment sets that number's payload, changes no other, appends a new number to the order, and keeps the count needed |
| Fragments.NumbersOf | src/domain/models/FragmentsHolder.ts:18-21 | one fragment number per delivery |
| Fragments.NumbersOfAt | src/domain/models/FragmentsHolder.ts:18-21 | the i-th number is the i-th delivery's |
| Fragments.JoinSnoc | src/domain/models/FragmentsHolder.ts:23-25 | joining one more number adds its payload at the end |
| Fragments.JoinIgnoresOthers | src/domain/models/FragmentsHolder.ts:23-25 | joining only looks at the listed numbers |
| Fragments.FreshDeliveries | src/domain/models/FragmentsHolder.ts:18-25 | fresh fragments are kept one each, and the concatenation is their payloads in arrival order |
| Fragments.FreshShape | src/domain/models/FragmentsHolder.ts:18-21 | each fresh fragment adds one number at the end |
| Fragments.FreshJoin | src/domain/models/FragmentsHolder.ts:23-25 | each fresh fragment's payload goes to the end of the concatenation |
| Fragments.NotYetDelivered | src/domain/models/FragmentsHolder.ts:18-21 | the last fresh delivery is not among those before it |
| Fragments.FreshStep | src/domain/models/FragmentsHolder.ts:18-25 | one fresh fragment goes to the end of the order and of the concatenation |
| Fragments.CompletesExactlyOnLastFragment | src/domain/models/FragmentsHolder.ts:14-16 | a message of n distinct fragments is complete after the n-th and not before |
| Fragments.OverfullNeverCompletes | src/domain/models/FragmentsHolder.ts:14-21 | a holder with more fragments than it needs never completes |
| Fragments.NonPositiveCountNeverCompletes | src/domain/models/FragmentsHolder.ts:9 | a count of zero or less never completes |
| Fragments.ArrivalOrderNotFragmentOrder | src/domain/models/FragmentsHolder.ts:23-25 | fragment 1 before fragment 0 is joined first |
| Fragments.FragmentsHolder.constructor | src/domain/models/FragmentsHolder.ts:8-12 | the holder is NewAssembly of its first fragment |
| Fragments.FragmentsHolder.AreFragmentsComplete | src/domain/models/FragmentsHolder.ts:14-16 | complete exactly when size equals fragmentsNeeded |
| Fragments.FragmentsHolder.AddFragment | src/domain/models/FragmentsHolder.ts:18-21 | the new state is WithFragment of the old, and the Map is returned |
| Fragments.FragmentsHolder.ConcatAllFragments | src/domain/models/FragmentsHolder.ts:23-25 | a fresh cursor at 0 over the joined payloads |
| FragmentsCache.FragmentsHolderCache.constructor | src/domain/models/FragmentsHolderCache.ts:5-6 | the cache starts empty with nothing found |
| FragmentsCache.FragmentsHolderCache.GetFromCache | src/domain/models/FragmentsHolderCache.ts:9-13 | remembers this number's holder, or nothing, and returns the cache |
| FragmentsCache.FragmentsHolderCache.IfPresentThenAddFragment | src/domain/models/FragmentsHolderCache.ts:15-17 | adds the fragment to the holder found, if any, and returns the cache |
| FragmentsCache.FragmentsHolderCache.OrElseNew | src/domain/models/FragmentsHolderCache.ts:19-22 | the holder found, or a fresh one for this fragment |
| FragmentsCache.FragmentsHolderCache.Delete | src/domain/models/FragmentsHolderCache.ts:24-26 | removes this number and no other |
| FragmentsCache.FragmentsHolderCache.Set | src/domain/models/FragmentsHolderCache.ts:27-29 | stores the holder under this number and leaves the others |
| PacketFactory.UdpPayloadValidity | src/domain/factories/PacketFactory.ts:71-80 | its only failure is a RangeError |
| PacketFactory.FragmentInfoAt | src/domain/factories/PacketFactory.ts:98-106 | a fragment header is exactly 20 bytes; its only failure is a RangeError |
| PacketFactory.ParameterMapEntry | src/domain/factories/PacketFactory.ts:163-165 | an entry reads forward inside the buffer |
| PacketFactory.ParameterMapEntries | src/domain/factories/PacketFactory.ts:162-166 | the loop reads forward inside the buffer |
| PacketFactory.ParameterMapAt | src/domain/factories/PacketFactory.ts:159-168 | the parameter map reads forward inside the buffer |
| PacketFactory.AsGame | src/domain/factories/PacketFactory.ts:108-122 | a game packet is returned as itself and an error passes through |
| PacketFactory.Updated | src/domain/factories/PacketFactory.ts:85-87 | the holder after a fragment is well formed |
| PacketFactory.FragmentOutcome | src/domain/factories/PacketFactory.ts:83-96 | handling a fragment command keeps every cached holder well formed |
| PacketFactory.FragmentHandled | src/domain/factories/PacketFactory.ts:85-95 | the cache after a fragment is well formed |
| PacketFactory.Reassembled | src/domain/factories/PacketFactory.ts:85-95 | the cache after the store-or-delete is well formed |
| PacketFactory.CommandOutcome | src/domain/factories/PacketFactory.ts:35-58 | routing a command keeps every cached holder well formed |
| PacketFactory.FragmentOutcomeAfterHeader | src/domain/factories/PacketFactory.ts:84-87 | once the 20-byte header is read, the fragment is handled on the rest of the command |
| PacketFactory.PacketFactory.constructor | src/domain/factories/PacketFactory.ts:28-33 | the factory starts with an empty fragment cache |
| PacketFactory.PacketFactory.BuildGamePacketFromPhotoCommand | src/domain/factories/PacketFactory.ts:35-58 | packet, cursor and new cache are CommandOutcome's of the old cache |
| PacketFactory.PacketFactory.PendingWellFormed | src/domain/factories/PacketFactory.ts:26 | a valid cache holds well-formed holders only |
| PacketFactory.PacketFactory.BuildPhotonCommandFromBuffer | src/domain/factories/PacketFactory.ts:60-69 | type, length, body and cursor are PhotonCommandAt's; the body is a fresh cursor at 0 |
| PacketFactory.PacketFactory.AssertThatUdpPayloadIsValid | src/domain/factories/PacketFactory.ts:71-80 | the answer (or throw) is UdpPayloadValidity's |
| PacketFactory.PacketFactory.HandleFragmentCommand | src/domain/factories/PacketFactory.ts:83-96 | packet, cursor and new cache are FragmentOutcome's of the old cache |
| PacketFactory.PacketFactory.HandleFragment | src/domain/factories/PacketFactory.ts:85-95 | packet and new cache are FragmentHandled's |
| PacketFactory.PacketFactory.StoreFragment | src/domain/factories/PacketFactory.ts:85-93 | the joined message (if complete) and the new cache are Reassembled's |
| PacketFactory.PacketFactory.DecodeMessage | src/domain/factories/PacketFactory.ts:91 | a completed message is its joined fragments decoded from byte 0 |
| PacketFactory.PacketFactory.HolderFor | src/domain/factories/PacketFactory.ts:85-87 | the holder is Updated's, and only this sequence number's cached holder changes |
| PacketFactory.PacketFactory.AddToCached | src/domain/factories/PacketFactory.ts:85-86 | the cached holder of the sequence number, if any, gets the fragment; nothing else changes |
| PacketFactory.PacketFactory.BuildFragmentInfoFromBuffer | src/domain/factories/PacketFactory.ts:98-106 | result and cursor are FragmentInfoAt's |
| PacketFactory.PacketFactory.BuildGamePacket | src/domain/factories/PacketFactory.ts:108-122 | result and cursor are GamePacketAt's |
| PacketFactory.PacketFactory.BuildEventGamePacket | src/domain/factories/PacketFactory.ts:124-138 | result and cursor are EventGamePacketAt's |
| PacketFactory.PacketFactory.BuildOperationRequestEvent | src/domain/factories/PacketFactory.ts:140-147 | result and cursor are OperationRequestEventAt's |
| PacketFactory.PacketFactory.BuildOperationResponseGameEvent | src/domain/factories/PacketFactory.ts:149-157 | result and cursor are OperationResponseGameEventAt's |
| PacketFactory.PacketFactory.BuildParameterMapFromBuffer | src/domain/factories/PacketFactory.ts:159-168 | the loop's result and cursor are ParameterMapAt's, including a throw half-way |
| PacketFactory.ReadParameterEntry | src/domain/factories/PacketFactory.ts:163-165 | result and cursor are ParameterMapEntry's |
| PacketFactory.ParameterMapEntriesUnfold | src/domain/factories/PacketFactory.ts:162-166 | one turn of the parameter loop: the entry is set and one fewer remains |
| PacketFactory.ParameterMapEntriesDone | src/domain/factories/PacketFactory.ts:162 | the loop ends with its map once the count is used up |
| PacketFactory.ParameterMapEntriesFail | src/domain/factories/PacketFactory.ts:163-165 | an entry that throws ends the loop with its error |
| PacketProperties.PhotonCommandFraming | src/domain/factories/PacketFactory.ts:60-69 | a command is read iff its length field exists and cursor + length lies in the buffer; then type, length and body sit where the header says and the cursor ends length bytes on; else RangeError |
| PacketProperties.NegativeCommandLengthMovesBack | src/domain/factories/PacketFactory.ts:62-67 | a negative length gives an empty body and moves the cursor back |
| PacketProperties.UdpPayloadValidityIff | src/domain/factories/PacketFactory.ts:71-80 | valid iff longer than 12 bytes and the int32 4 bytes past the cursor lies in [0, 666]; throws iff longer than 12 with fewer than 8 bytes left |
| PacketProperties.CommandRouting | src/domain/factories/PacketFactory.ts:35-58 | only fragments change the cache; reliable is the body's packet; types other than 6, 7 and 8 are OTHER and read nothing |
| PacketProperties.UnreliableSeesOnlyFourBytes | src/domain/factories/PacketFactory.ts:39-52 | an unreliable packet depends only on the body's first 4 bytes, never fails, and moves 4 bytes on |
| PacketProperties.UnreliableShortBodyThrows | src/domain/factories/PacketFactory.ts:40 | a body shorter than 4 bytes throws a RangeError |
| PacketProperties.CategoryDispatch | src/domain/factories/PacketFactory.ts:108-122 | the byte after the cursor selects request (2), event (4), response (3, 7) or an empty unhandled packet; a short buffer throws |
| PacketProperties.EntityMoveUsesMoveBuilder | src/domain/factories/PacketFactory.ts:124-134 | code 3 sets parameter 252 to 3 and goes to the move builder |
| PacketProperties.EventCodeByteIgnored | src/domain/factories/PacketFactory.ts:125-132 | other code bytes are not looked at: equal parameter maps decode alike |
| PacketProperties.UnregisteredCodesAreUnhandled | src/domain/factories/PacketFactory.ts:140-147 | a request with no builder for parameter 253 is unhandled with its whole map |
| PacketProperties.ResponseAlwaysUnhandled | src/domain/factories/PacketFactory.ts:149-157 | three skipped bytes, a tagged value decoded and dropped, then the parameter map: a failing value or map gives its error and position, and otherwise the packet is unhandled with that map and of type OTHER |
| PacketProperties.ParameterMapUpsert | src/domain/factories/PacketFactory.ts:159-168 | the parameter map is its entries stored in order (last write wins), with the same error and position |
| PacketProperties.LargeParameterCountIsEmpty | src/domain/factories/PacketFactory.ts:161 | a count byte >= 128 gives an empty map after 2 bytes |
| PacketProperties.FragmentTouchesOnlyItsSequence | src/domain/factories/PacketFactory.ts:83-96 | a fragment changes only its own sequence number's entry, and nothing is evicted |
| PacketProperties.CompletedMessageLeavesCache | src/domain/factories/PacketFactory.ts:89-91 | a completing fragment removes its entry whatever decoding gives, and the answer is the joined message decoded |
| PacketProperties.IncompleteMessageIsStored | src/domain/factories/PacketFactory.ts:92-95 | an incomplete message is stored under its sequence number and answered with FRAGMENT |
| PacketProperties.FragmentInfoFields | src/domain/factories/PacketFactory.ts:98-106 | a fragment header is read exactly when 20 bytes remain, and then holds the five signed int32 fields in order: sequence number, fragment count, fragment number, total length, offset |
| PacketProperties.UnregisteredEventsAreUnhandled | src/domain/factories/PacketFactory.ts:124-138 | an event whose parameter 252 finds no builder is unhandled with its whole parameter map |
| PacketProperties.ParameterMapRoundTrip | src/domain/factories/PacketFactory.ts:159-168 | a parameter map written from any list of entries (int16 count, then id, tag, body per entry) decodes to the map those entries build, a later id overriding an earlier one, and reads exactly its bytes |
| PacketProperties.ParameterMapEntriesRoundTrip | src/domain/factories/PacketFactory.ts:162-166 | the parameter loop over written entries stores them one after another into the map it started from |
| PacketProperties.ParameterMapEntryStep | src/domain/factories/PacketFactory.ts:162-166 | one turn of the parameter loop over written entries, and where the rest starts |
| PacketProperties.ParameterMapEntryRoundTrip | src/domain/factories/PacketFactory.ts:163-165 | one written entry reads back as its id and value |
| PacketProperties.ResponseOfEncoding | src/domain/factories/PacketFactory.ts:149-157 | a response written as three bytes, a tagged debug value and a parameter map is unhandled with the map those entries build, and reads exactly those bytes |
| PacketProperties.ResponseDebug | src/domain/factories/PacketFactory.ts:151 | the debug value of a written response reads back, and the parameter map starts after it |
| PacketProperties.ResponseRest | src/domain/factories/PacketFactory.ts:152-156 | once the debug value is read, the written parameter map decides the response |

## Left out

- Packet capture, the 42-byte link-layer strip, the loop over commands in a datagram, and the WebSocket fan-out of `OugaBougaApp.ts` are I/O around the core. IPacketFactory.ts is an interface only.
- Console logging is left out. This includes the logging in `buildEventGamePacket`, `buildGameEventOnMove` and `buildOperationRequestOnMoveUser`, and the empty loop of `buildGameEventOnMove`.
- Floating point. Float and Double values, and the positions of the move event, are kept as their IEEE-754 bit patterns. They are not interpreted as numbers.
- Cursor.BufferCursor.ToString: returns the bytes of the string. UTF-8 decoding is not modelled.
- Cursor.BufferCursor.MoveCursorPosition: takes a natural step. Every caller in the core passes a positive constant, so negative steps are never modelled.
- Cursor.BufferCursor.Copy: for a source range that is inverted (start after end) or ends past the source, the model returns a RangeError and leaves the buffer and the cursor unchanged. The code instead lets `Buffer.copy` clamp the end to the source (or copy nothing for an inverted range) and still moves the cursor by sourceEnd - sourceStart, backwards for an inverted range.
- EventGamePacketFactory.FindBuilderFunctionByEventCode: a float or double code gives `CoercionNotModelled`, because the bits are not turned into a number. The same holds for OperationRequestGamePacketFactory.FindBuilderFunctionByEventCode.
- JsValues.Stringified: the string form of an array, a Buffer, a float and a double is not modelled and gives `CoercionNotModelled`; float and double values hold only their bits.
- JavaScript coercions outside the shapes that occur give `CoercionNotModelled`. Examples are `new Uint8Array` of a string or an object, and `Number` of a string. Object keys of a Dictionary are the decoded values themselves, not their string forms.
- Protocol16.DecodeValue: its own contract states only that it reads forward and fails only on unknown codes. What it decodes is stated by the round-trip lemmas in Protocol16Properties. `DecodeValueRoundTrip` covers every value the reference encoder writes; that encoder writes a map value in one enumeration order of its keys. `DictionaryRoundTrip`, `HashtableRoundTrip`, `ParameterTableRoundTrip` and `PacketProperties.ParameterMapRoundTrip` cover bodies written from any list of entries, in any order and with repeated keys. The bytes a parameter table skips are written as zeros; the round trips do not depend on them, as `SingleEntryParameterTable` shows for one entry.
- The `ifPresentThen` and `orElse` callbacks are modelled only for the one pair of callbacks the packet factory passes.
