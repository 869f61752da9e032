/** What PacketFactory promises about framing, validity, routing, message categories,
    parameter maps and the fragment cache, stated on the specification functions that
    the methods of the PacketFactory class are proved equal to. */
module PacketProperties {
  import opened Bytes
  import opened Results
  import opened Cursor
  import opened CursorProperties
  import opened Protocol16
  import opened Protocol16Encoding
  import P16 = Protocol16Properties
  import opened JsValues
  import opened Maps
  import opened GamePacketModels
  import opened Fragments
  import opened PacketFactory
  import E = EventGamePacketFactory
  import R = OperationRequestGamePacketFactory

  // ---------------------------------------------------------------------------
  // Framing and validity

  /** A command is its type byte, three skipped bytes, a signed 32-bit length and four
      more skipped bytes, then the body up to commandLength bytes past the start. It is
      read exactly when the length field is there and that end lies inside the buffer;
      the cursor then ends commandLength bytes past the start, whatever that length. A
      length below 12 yields an empty body. */
  lemma PhotonCommandFraming(data: seq<byte>, pos: nat)
    ensures PhotonCommandAt(data, pos).result.Ok? <==>
              pos + 8 <= |data| && 0 <= pos + Signed(data[pos + 4 .. pos + 8]) <= |data|
    ensures PhotonCommandAt(data, pos).result.Ok? ==>
              var r := PhotonCommandAt(data, pos);
              var c := r.result.value;
              && c.commandType == data[pos] as int
              && c.commandLength == Signed(data[pos + 4 .. pos + 8])
              && r.pos == pos + c.commandLength
              && c.body == (if c.commandLength >= PhotonHeaderLengthInBytes
                            then data[pos + PhotonHeaderLengthInBytes .. pos + c.commandLength] else [])
    ensures PhotonCommandAt(data, pos).result.Err? ==> PhotonCommandAt(data, pos).result.error == RangeError
  {
    if pos + 1 <= |data| {
      ByteAt(data, pos, 0);
    }
  }

  /** A negative length is not rejected: when cursor + length stays inside the buffer
      the command has no body and the outer cursor moves back before the command. */
  lemma NegativeCommandLengthMovesBack(data: seq<byte>, pos: nat)
    requires pos + 8 <= |data|
    requires Signed(data[pos + 4 .. pos + 8]) < 0 && 0 <= pos + Signed(data[pos + 4 .. pos + 8])
    ensures PhotonCommandAt(data, pos).result.Ok?
    ensures PhotonCommandAt(data, pos).result.value.body == []
    ensures PhotonCommandAt(data, pos).pos < pos
  {
    PhotonCommandFraming(data, pos);
  }

  /** A datagram is valid exactly when it is longer than the 12-byte header in total and
      the signed 32-bit value 4 bytes past the cursor lies in [0, 666]. That value is read
      from the bytes after the cursor, so fewer than 8 of them throw; a datagram of at
      most 12 bytes is invalid without any read. */
  lemma UdpPayloadValidityIff(data: seq<byte>, pos: nat)
    ensures UdpPayloadValidity(data, pos) == Ok(true) <==>
              |data| > PhotonHeaderLengthInBytes && pos + 8 <= |data| && 0 <= Signed(data[pos + 4 .. pos + 8]) <= 666
    ensures UdpPayloadValidity(data, pos).Err? <==> |data| > PhotonHeaderLengthInBytes && pos + 8 > |data|
    ensures |data| <= PhotonHeaderLengthInBytes ==> UdpPayloadValidity(data, pos) == Ok(false)
  {
    if |data| > PhotonHeaderLengthInBytes && pos + 8 <= |data| {
      assert data[pos..][4..8] == data[pos + 4 .. pos + 8];
    }
  }

  /** A fragment header is five signed 32-bit fields back to back, read exactly when all
      20 bytes are there: sequence number, fragment count, fragment number, total length
      and fragment offset. */
  lemma FragmentInfoFields(data: seq<byte>, pos: nat)
    ensures FragmentInfoAt(data, pos).result.Ok? <==> pos + 20 <= |data|
    ensures pos + 20 <= |data| ==>
              FragmentInfoAt(data, pos)
              == Read(Ok(FragmentInfo(Signed(data[pos .. pos + 4]), Signed(data[pos + 4 .. pos + 8]),
                                      Signed(data[pos + 8 .. pos + 12]), Signed(data[pos + 12 .. pos + 16]),
                                      Signed(data[pos + 16 .. pos + 20]))), pos + 20)
  {
  }

  // ---------------------------------------------------------------------------
  // Routing by command type

  /** Only a fragment command can change the cache. A reliable command is its body's
      game packet, errors included; every type other than reliable, unreliable and
      fragment (5 among them) is OTHER and reads nothing. */
  lemma CommandRouting(commandType: int, data: seq<byte>, pos: nat, cache: map<int, Assembly>)
    requires CacheWellFormed(cache)
    ensures commandType != FragmentType.Code() ==> CommandOutcome(commandType, data, pos, cache).cache == cache
    ensures commandType == ReliableType.Code() ==>
              CommandOutcome(commandType, data, pos, cache).result == AsGame(GamePacketAt(data, pos).result)
    ensures commandType !in {ReliableType.Code(), UnreliableType.Code(), FragmentType.Code()} ==>
              CommandOutcome(commandType, data, pos, cache) == Outcome(Ok(Plain(PacketType.Other)), pos, cache)
  {
  }

  /** An unreliable command is decoded from the first 4 bytes of its body alone: two
      bodies that start alike give the same answer, which never is an error, and the
      cursor moves past those 4 bytes. Taking them is outside the `try`, so a body
      shorter than 4 bytes throws. */
  lemma UnreliableSeesOnlyFourBytes(data: seq<byte>, pos: nat, other: seq<byte>, otherPos: nat,
                                    cache: map<int, Assembly>)
    requires CacheWellFormed(cache)
    requires pos + 4 <= |data| && otherPos + 4 <= |other| && data[pos .. pos + 4] == other[otherPos .. otherPos + 4]
    ensures CommandOutcome(UnreliableType.Code(), data, pos, cache).result
         == CommandOutcome(UnreliableType.Code(), other, otherPos, cache).result
    ensures CommandOutcome(UnreliableType.Code(), data, pos, cache).result.Ok?
    ensures CommandOutcome(UnreliableType.Code(), data, pos, cache).pos == pos + 4
  {
    RegionAtWithLength(data, pos, 4);
    RegionAtWithLength(other, otherPos, 4);
  }

  /** The throw of `subarray(4)` on a short body is not caught. */
  lemma UnreliableShortBodyThrows(data: seq<byte>, pos: nat, cache: map<int, Assembly>)
    requires CacheWellFormed(cache) && pos + 4 > |data|
    ensures CommandOutcome(UnreliableType.Code(), data, pos, cache) == Outcome(Err(RangeError), pos, cache)
  {
    RegionAtWithLength(data, pos, 4);
  }

  // ---------------------------------------------------------------------------
  // Message categories

  /** The category is the byte after the cursor (the one at the cursor is skipped),
      and the message starts after it: 2 is a request, 4 an event, 3 and 7 responses,
      and any other category an UnhandledGameEvent with no parameters. */
  lemma CategoryDispatch(data: seq<byte>, pos: nat)
    ensures pos + 2 > |data| ==> GamePacketAt(data, pos) == Read(Err(RangeError), pos)
    ensures pos + 2 <= |data| ==>
              var category := data[pos + 1] as int;
              && (category == 2 ==> GamePacketAt(data, pos) == OperationRequestEventAt(data, pos + 2))
              && (category == 4 ==> GamePacketAt(data, pos) == EventGamePacketAt(data, pos + 2))
              && (category == 3 || category == 7 ==> GamePacketAt(data, pos) == OperationResponseGameEventAt(data, pos + 2))
              && (category !in {2, 3, 4, 7} ==> GamePacketAt(data, pos) == Read(Ok(DefaultUnhandledGameEvent()), pos + 2))
  {
    if pos + 2 <= |data| {
      ByteAt(data, pos, 1);
    }
  }

  /** An event whose code byte is 3 (ON_ENTITY_MOVE) gets parameter 252 set to 3 and so
      always goes to the move builder. */
  lemma EntityMoveUsesMoveBuilder(data: seq<byte>, pos: nat)
    requires pos < |data| && data[pos] as int == EventGamePacketEventCode.OnEntityMove.Code()
    requires ParameterMapAt(data, pos + 1).result.Ok?
    ensures EventGamePacketAt(data, pos)
         == Read(E.BuildGameEventOnMove(ParameterMapAt(data, pos + 1).result.value[252 := Integer(3)]),
                 ParameterMapAt(data, pos + 1).pos)
  {
    ByteAt(data, pos, 0);
  }

  /** Any other event code byte is not looked at: events whose code bytes are not 3 and
      whose parameter maps read alike decode alike. The builder is chosen by parameter
      252 alone. */
  lemma EventCodeByteIgnored(data: seq<byte>, pos: nat, other: seq<byte>, otherPos: nat)
    requires pos < |data| && data[pos] as int != EventGamePacketEventCode.OnEntityMove.Code()
    requires otherPos < |other| && other[otherPos] as int != EventGamePacketEventCode.OnEntityMove.Code()
    requires ParameterMapAt(data, pos + 1) == ParameterMapAt(other, otherPos + 1)
    ensures EventGamePacketAt(data, pos) == EventGamePacketAt(other, otherPos)
  {
    ByteAt(data, pos, 0);
    ByteAt(other, otherPos, 0);
  }

  /** A request whose parameter 253 finds no builder is unhandled and keeps its whole map. */
  lemma UnregisteredCodesAreUnhandled(data: seq<byte>, pos: nat)
    requires ParameterMapAt(data, pos + 1).result.Ok?
    ensures var parameters := ParameterMapAt(data, pos + 1).result.value;
            (R.FindBuilderFunctionByEventCode(Get(parameters, 253)) == Ok(None) ==>
               OperationRequestEventAt(data, pos) == Read(Ok(UnhandledGameEvent(parameters)), ParameterMapAt(data, pos + 1).pos))
  {
  }

  /** An event whose code byte is not 3 and whose parameter 252 finds no builder is
      unhandled and keeps its whole map. */
  lemma UnregisteredEventsAreUnhandled(data: seq<byte>, pos: nat)
    requires pos < |data| && data[pos] as int != EventGamePacketEventCode.OnEntityMove.Code()
    requires ParameterMapAt(data, pos + 1).result.Ok?
    ensures var parameters := ParameterMapAt(data, pos + 1).result.value;
            (E.FindBuilderFunctionByEventCode(Get(parameters, 252)) == Ok(None) ==>
               EventGamePacketAt(data, pos) == Read(Ok(UnhandledGameEvent(parameters)), ParameterMapAt(data, pos + 1).pos))
  {
    ByteAt(data, pos, 0);
  }

  /** A response never reaches a builder: after three skipped bytes and one tagged value
      it is the parameter map that follows, unhandled; it fails where either read fails. */
  lemma ResponseAlwaysUnhandled(data: seq<byte>, pos: nat)
    ensures var debug := TaggedValue(data, pos + 3);
            var parameters := ParameterMapAt(data, debug.pos);
            && (debug.result.Err? ==> OperationResponseGameEventAt(data, pos) == Fail(debug))
            && (debug.result.Ok? && parameters.result.Err? ==> OperationResponseGameEventAt(data, pos) == Fail(parameters))
            && (debug.result.Ok? && parameters.result.Ok? ==>
                  OperationResponseGameEventAt(data, pos) == Read(Ok(UnhandledGameEvent(parameters.result.value)), parameters.pos))
    ensures OperationResponseGameEventAt(data, pos).result.Ok? ==>
              OperationResponseGameEventAt(data, pos).result.value.GamePacketTypeOf() == GamePacketType.Other
  {
  }

  /** A response written as three bytes, a tagged debug value and a parameter map built
      from a list of entries reads back as an unhandled event holding that map. */
  lemma ResponseOfEncoding(data: seq<byte>, pos: nat, debug: Value, entries: seq<(int, Value)>)
    requires Encodable(debug) && ParameterMapFits(entries)
    requires Within(data, pos + 3, EncodeUnsigned(TagOf(debug), 1) + EncodeBody(debug) + EncodeParameterMap(entries))
    ensures OperationResponseGameEventAt(data, pos)
         == Read(Ok(UnhandledGameEvent(Upserted(map[], entries))),
                 pos + 3 + 1 + |EncodeBody(debug)| + |EncodeParameterMap(entries)|)
  {
    var mid := ResponseDebug(data, pos, debug, EncodeParameterMap(entries));
    ResponseRest(data, pos, debug, mid, entries);
  }

  /** The debug value of a written response, and where the parameter map starts. */
  lemma ResponseDebug(data: seq<byte>, pos: nat, debug: Value, rest: seq<byte>) returns (mid: nat)
    requires Encodable(debug) && Within(data, pos + 3, EncodeUnsigned(TagOf(debug), 1) + EncodeBody(debug) + rest)
    ensures mid == pos + 3 + 1 + |EncodeBody(debug)|
    ensures TaggedValue(data, pos + 3) == Read(Ok(debug), mid) && Within(data, mid, rest)
  {
    P16.ObjectElementRoundTrip(data, pos + 3, debug, rest);
    mid := pos + 3 + 1 + |EncodeBody(debug)|;
  }

  /** The rest of a written response: its parameter map. */
  lemma ResponseRest(data: seq<byte>, pos: nat, debug: Value, mid: nat, entries: seq<(int, Value)>)
    requires TaggedValue(data, pos + 3) == Read(Ok(debug), mid)
    requires ParameterMapFits(entries) && Within(data, mid, EncodeParameterMap(entries))
    ensures OperationResponseGameEventAt(data, pos)
         == Read(Ok(UnhandledGameEvent(Upserted(map[], entries))), mid + |EncodeParameterMap(entries)|)
  {
    ParameterMapRoundTrip(data, mid, entries);
    ResponseOfParts(data, pos, debug, mid, Read(Ok(Upserted(map[], entries)), mid + |EncodeParameterMap(entries)|));
  }

  /** A response is decided by its debug value and the parameter map after it. */
  lemma ResponseOfParts(data: seq<byte>, pos: nat, debug: Value, mid: nat, parameters: Read<map<int, Value>>)
    requires TaggedValue(data, pos + 3) == Read(Ok(debug), mid)
    requires ParameterMapAt(data, mid) == parameters && parameters.result.Ok?
    ensures OperationResponseGameEventAt(data, pos) == Read(Ok(UnhandledGameEvent(parameters.result.value)), parameters.pos)
  {
  }

  // ---------------------------------------------------------------------------
  // Parameter maps

  /** The entries of buildParameterMapFromBuffer as a list, in the order read. */
  function ParameterEntryList(data: seq<byte>, pos: nat, count: int, acc: seq<(int, Value)>): Read<seq<(int, Value)>>
    decreases if count > 0 then count else 0
  {
    if count <= 0 then Read(Ok(acc), pos)
    else
      var entry := ParameterMapEntry(data, pos);
      if entry.result.Err? then Fail(entry)
      else ParameterEntryList(data, entry.pos, count - 1, acc + [entry.result.value])
  }

  /** The parameter map is the list of entries stored one after another, so a repeated
      id keeps its last value (see Maps.UpsertedLastWins). */
  lemma {:induction false} ParameterMapUpsert(data: seq<byte>, pos: nat, count: int, acc: seq<(int, Value)>)
    ensures var list := ParameterEntryList(data, pos, count, acc);
            var parameters := ParameterMapEntries(data, pos, count, Upserted(map[], acc));
            && parameters.pos == list.pos
            && parameters.result.Ok? == list.result.Ok?
            && (list.result.Ok? ==> parameters.result.value == Upserted(map[], list.result.value))
            && (list.result.Err? ==> parameters.result.error == list.result.error)
    decreases if count > 0 then count else 0
  {
    if count > 0 {
      var entry := ParameterMapEntry(data, pos);
      if entry.result.Ok? {
        var (k, v) := entry.result.value;
        UpsertedSnoc(map[], acc, k, v);
        ParameterMapUpsert(data, entry.pos, count - 1, acc + [(k, v)]);
      }
    }
  }

  /** The count is signed: a count byte of 128 or more gives an empty map after the two
      count bytes, however many entries follow. */
  lemma LargeParameterCountIsEmpty(data: seq<byte>, pos: nat)
    requires pos + 2 <= |data| && data[pos] >= 128
    ensures ParameterMapAt(data, pos) == Read(Ok(map[]), pos + 2)
  {
    assert data[pos .. pos + 2][0] == data[pos];
    SignedNegativeWhenTopBitSet(data[pos .. pos + 2]);
  }

  // ---------------------------------------------------------------------------
  // The parameter map written from a list of entries

  /** Entries that buildParameterMapFromBuffer can read back: ids that fit a byte, values
      the encoder can write, and a count that stays positive as a signed int16. */
  ghost predicate ParameterMapFits(entries: seq<(int, Value)>)
  {
    2 * |entries| < Pow256(2) && TableEntriesFit(entries)
  }

  /** One entry: the id byte, the value's tag byte, the value's body. */
  ghost function EncodeParameterMapEntry(k: int, x: Value): seq<byte>
    requires 0 <= k < Pow256(1) && Encodable(x)
  {
    EncodeUnsigned(k, 1) + (EncodeUnsigned(TagOf(x), 1) + EncodeBody(x))
  }

  ghost function EncodeParameterMapEntries(entries: seq<(int, Value)>): seq<byte>
    requires TableEntriesFit(entries)
    decreases |entries|
  {
    if entries == [] then []
    else EncodeParameterMapEntry(entries[0].0, entries[0].1) + EncodeParameterMapEntries(entries[1..])
  }

  /** A parameter map: a signed int16 count, then the entries in order. */
  ghost function EncodeParameterMap(entries: seq<(int, Value)>): seq<byte>
    requires ParameterMapFits(entries)
  {
    EncodeSigned(|entries|, 2) + EncodeParameterMapEntries(entries)
  }

  /** A parameter map written from any list of entries reads back as the map those
      entries build, a later id overriding an earlier one, and ends where it was written. */
  lemma ParameterMapRoundTrip(data: seq<byte>, pos: nat, entries: seq<(int, Value)>)
    requires ParameterMapFits(entries) && Within(data, pos, EncodeParameterMap(entries))
    ensures ParameterMapAt(data, pos) == Read(Ok(Upserted(map[], entries)), pos + |EncodeParameterMap(entries)|)
  {
    var a, b := EncodeSigned(|entries|, 2), EncodeParameterMapEntries(entries);
    var next := SplitAt(data, pos, a, b);
    SignedAtOfEncoding(data, pos, 2, 0, |entries|);
    ParameterMapEntriesRoundTrip(data, next, entries, map[]);
    ParameterMapOfParts(data, pos, |entries|, next, ParameterMapEntries(data, next, |entries|, map[]));
  }

  /** The parameter map is its count followed by its entries. */
  lemma ParameterMapOfParts(data: seq<byte>, pos: nat, count: int, next: nat, r: Read<map<int, Value>>)
    requires SignedAt(data, pos, 2, 0) == Read(Ok(count), next)
    requires ParameterMapEntries(data, next, count, map[]) == r
    ensures ParameterMapAt(data, pos) == r
  {
  }

  /** The loop of buildParameterMapFromBuffer over written entries stores them one after another. */
  lemma {:induction false} ParameterMapEntriesRoundTrip(data: seq<byte>, pos: nat, entries: seq<(int, Value)>,
                                                        acc: map<int, Value>)
    requires TableEntriesFit(entries) && Within(data, pos, EncodeParameterMapEntries(entries))
    ensures ParameterMapEntries(data, pos, |entries|, acc)
         == Read(Ok(Upserted(acc, entries)), pos + |EncodeParameterMapEntries(entries)|)
    decreases |entries|
  {
    if entries != [] {
      var next := ParameterMapEntryStep(data, pos, entries, acc);
      ParameterMapEntriesRoundTrip(data, next, entries[1..], acc[entries[0].0 := entries[0].1]);
    } else {
      ParameterMapEntriesDone(data, pos, |entries|, acc);
    }
  }

  /** The first turn of that loop over written entries. */
  lemma ParameterMapEntryStep(data: seq<byte>, pos: nat, entries: seq<(int, Value)>, acc: map<int, Value>)
    returns (next: nat)
    requires entries != [] && TableEntriesFit(entries) && Within(data, pos, EncodeParameterMapEntries(entries))
    ensures TableEntriesFit(entries[1..]) && Within(data, next, EncodeParameterMapEntries(entries[1..]))
    ensures next + |EncodeParameterMapEntries(entries[1..])| == pos + |EncodeParameterMapEntries(entries)|
    ensures ParameterMapEntries(data, pos, |entries|, acc)
         == ParameterMapEntries(data, next, |entries[1..]|, acc[entries[0].0 := entries[0].1])
  {
    var (k, x) := entries[0];
    assert 0 <= k < Pow256(1) && Encodable(x);
    var e := EncodeParameterMapEntry(k, x);
    next := SplitAt(data, pos, e, EncodeParameterMapEntries(entries[1..]));
    ParameterMapEntryRoundTrip(data, pos, k, x);
    ParameterMapEntriesUnfold(data, pos, |entries|, |entries[1..]|, acc, acc[k := x], (k, x), next);
  }

  /** One written entry reads back as its id and value. */
  lemma ParameterMapEntryRoundTrip(data: seq<byte>, pos: nat, k: int, x: Value)
    requires 0 <= k < Pow256(1) && Encodable(x) && Within(data, pos, EncodeParameterMapEntry(k, x))
    ensures ParameterMapEntry(data, pos) == Read(Ok((k, x)), pos + |EncodeParameterMapEntry(k, x)|)
  {
    var tagged := EncodeUnsigned(TagOf(x), 1) + EncodeBody(x);
    var mid := SplitAt(data, pos, EncodeUnsigned(k, 1), tagged);
    UnsignedAtOfEncoding(data, pos, 1, 0, k);
    assert tagged + [] == tagged;
    P16.ObjectElementRoundTrip(data, mid, x, []);
  }

  // ---------------------------------------------------------------------------
  // The fragment cache

  /** A fragment changes at most the entry of its own sequence number; nothing else is
      dropped (there is no eviction) and no other entry is added. */
  lemma FragmentTouchesOnlyItsSequence(cache: map<int, Assembly>, info: FragmentInfo, payload: seq<byte>, k: int)
    requires CacheWellFormed(cache) && k != info.sequenceNumber
    ensures var after := FragmentHandled(cache, info, payload).1;
            && (k in after <==> k in cache)
            && (k in cache ==> after[k] == cache[k])
  {
  }

  /** A fragment that completes its message removes the entry before the message is
      decoded, so it is gone whether or not decoding succeeds; the answer is the
      message, its fragments joined, decoded from its first byte. */
  lemma CompletedMessageLeavesCache(cache: map<int, Assembly>, info: FragmentInfo, payload: seq<byte>)
    requires CacheWellFormed(cache) && IsComplete(Updated(cache, info, payload))
    ensures FragmentHandled(cache, info, payload).1 == cache - {info.sequenceNumber}
    ensures FragmentHandled(cache, info, payload).0 == AsGame(GamePacketAt(Concatenated(Updated(cache, info, payload)), 0).result)
  {
  }

  /** A fragment that leaves its message incomplete is stored under its sequence number
      and answered with FRAGMENT. */
  lemma IncompleteMessageIsStored(cache: map<int, Assembly>, info: FragmentInfo, payload: seq<byte>)
    requires CacheWellFormed(cache) && !IsComplete(Updated(cache, info, payload))
    ensures FragmentHandled(cache, info, payload)
         == (Ok(Plain(PacketType.Fragment)), cache[info.sequenceNumber := Updated(cache, info, payload)])
  {
  }
}
