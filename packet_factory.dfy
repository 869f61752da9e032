/** PacketFactory (src/domain/factories/PacketFactory.ts): frames Photon commands,
    routes them by command type, reassembles fragments, and decodes a message's
    category and parameter map before handing it to a builder registry.

    The functions at the top describe each step on (bytes, position) pairs, and the
    fragment path on the states of the cached holders; the methods of the class mirror
    the source and are proved equal to them. A thrown error is an `Err`. */
module PacketFactory {
  import opened Bytes
  import opened Results
  import opened Cursor
  import opened Protocol16
  import opened Protocol16Deserializer
  import opened JsValues
  import opened GamePacketModels
  import opened Fragments
  import opened FragmentsCache
  import E = EventGamePacketFactory
  import R = OperationRequestGamePacketFactory

  const PhotonHeaderLengthInBytes := 12

  /** The value content of a PhotonCommand: its body bytes instead of a cursor over them. */
  datatype Command = Command(commandType: int, commandLength: int, body: seq<byte>)

  /** BuildPhotonCommandFromBuffer: the type byte, an int32 length 3 bytes further on, 4
      more bytes skipped without a check, then the next commandLength - 12 bytes. */
  function PhotonCommandAt(data: seq<byte>, pos: nat): (r: Read<Command>)
  {
    var photoCommandType := UnsignedAt(data, pos, 1, 0);
    if photoCommandType.result.Err? then Fail(photoCommandType)
    else
      var commandLength := SignedAt(data, photoCommandType.pos, 4, 3);
      if commandLength.result.Err? then Fail(commandLength)
      else
        var body := RegionAt(data, commandLength.pos + 4, Some(commandLength.result.value - PhotonHeaderLengthInBytes));
        if body.result.Err? then Fail(body)
        else Read(Ok(Command(photoCommandType.result.value, commandLength.result.value, body.result.value)), body.pos)
  }

  /** assertThatUdpPayloadIsValid: a datagram longer than the header (in total, not from
      the cursor on) whose int32 at cursor + 4 lies in [0, 666]. `getBuffer()` copies the
      rest from the cursor, and Buffer.readInt32BE(4) throws when it is shorter than 8. */
  function UdpPayloadValidity(data: seq<byte>, pos: nat): (r: Result<bool>)
    ensures r.Err? ==> r.error == RangeError
  {
    if |data| > PhotonHeaderLengthInBytes then
      match RestFrom(data, pos)
      case Err(e) => Err(e)
      case Ok(rest) =>
        if |rest| < 8 then Err(RangeError)
        else
          var lol := Signed(rest[4..8]);
          if lol < 0 || lol > 666 then Ok(false) else Ok(|data| > PhotonHeaderLengthInBytes)
    else Ok(|data| > PhotonHeaderLengthInBytes)
  }

  /** buildFragmentInfoFromBuffer: five int32 fields in declaration order. */
  function FragmentInfoAt(data: seq<byte>, pos: nat): (r: Read<FragmentInfo>)
    ensures Advances(data, pos, r.pos)
    ensures r.result.Ok? ==> r.pos == pos + 20
    ensures r.result.Err? ==> r.result.error == RangeError
  {
    var sequenceNumber := SignedAt(data, pos, 4, 0);
    if sequenceNumber.result.Err? then Fail(sequenceNumber) else
    var fragmentCount := SignedAt(data, sequenceNumber.pos, 4, 0);
    if fragmentCount.result.Err? then Fail(fragmentCount) else
    var fragmentNumber := SignedAt(data, fragmentCount.pos, 4, 0);
    if fragmentNumber.result.Err? then Fail(fragmentNumber) else
    var totalLength := SignedAt(data, fragmentNumber.pos, 4, 0);
    if totalLength.result.Err? then Fail(totalLength) else
    var fragmentOffset := SignedAt(data, totalLength.pos, 4, 0);
    if fragmentOffset.result.Err? then Fail(fragmentOffset) else
    Read(Ok(FragmentInfo(sequenceNumber.result.value, fragmentCount.result.value, fragmentNumber.result.value,
                         totalLength.result.value, fragmentOffset.result.value)), fragmentOffset.pos)
  }

  // ---------------------------------------------------------------------------
  // Parameter maps and message categories

  /** One entry of buildParameterMapFromBuffer: a uint8 id, a uint8 tag, the value. */
  function ParameterMapEntry(data: seq<byte>, pos: nat): (r: Read<(int, Value)>)
    ensures Advances(data, pos, r.pos)
  {
    var paramId := UnsignedAt(data, pos, 1, 0);
    if paramId.result.Err? then Fail(paramId)
    else
      var value := TaggedValue(data, paramId.pos);
      if value.result.Err? then Fail(value)
      else Read(Ok((paramId.result.value, value.result.value)), value.pos)
  }

  /** The loop of buildParameterMapFromBuffer from some entry on. */
  function ParameterMapEntries(data: seq<byte>, pos: nat, count: int, acc: map<int, Value>): (r: Read<map<int, Value>>)
    decreases if count > 0 then count else 0
    ensures Advances(data, pos, r.pos)
  {
    if count <= 0 then Read(Ok(acc), pos)
    else
      var entry := ParameterMapEntry(data, pos);
      if entry.result.Err? then Fail(entry)
      else ParameterMapEntries(data, entry.pos, count - 1, acc[entry.result.value.0 := entry.result.value.1])
  }

  /** buildParameterMapFromBuffer: a signed int16 count, then that many entries. */
  function ParameterMapAt(data: seq<byte>, pos: nat): (r: Read<map<int, Value>>)
    ensures Advances(data, pos, r.pos)
  {
    var parameterCount := SignedAt(data, pos, 2, 0);
    if parameterCount.result.Err? then Fail(parameterCount)
    else ParameterMapEntries(data, parameterCount.pos, parameterCount.result.value, map[])
  }

  /** buildEventGamePacket: the event-code byte, the parameter map, parameter 252 forced
      to 3 for an entity move, then the builder registered for parameter 252. */
  function EventGamePacketAt(data: seq<byte>, pos: nat): (r: Read<GamePacket>)
  {
    var eventCode := UnsignedAt(data, pos, 1, 0);
    if eventCode.result.Err? then Fail(eventCode)
    else EventOfParameters(ParameterMapAt(data, eventCode.pos), eventCode.result.value == EventGamePacketEventCode.OnEntityMove.Code())
  }

  /** The part of buildEventGamePacket after the parameter map is read. */
  function EventOfParameters(parameters: Read<map<int, Value>>, isEntityMove: bool): (r: Read<GamePacket>)
  {
    if parameters.result.Err? then Fail(parameters)
    else
      var params := if isEntityMove then parameters.result.value[252 := Integer(3)] else parameters.result.value;
      match E.FindBuilderFunctionByEventCode(Get(params, 252))
      case Err(e) => Read(Err(e), parameters.pos)
      case Ok(None) => Read(Ok(UnhandledGameEvent(params)), parameters.pos)
      case Ok(Some(builder)) => Read(E.Build(builder, params), parameters.pos)
  }

  /** buildOperationRequestEvent: one byte skipped, the parameter map, then the builder
      registered for parameter 253. */
  function OperationRequestEventAt(data: seq<byte>, pos: nat): (r: Read<GamePacket>)
  {
    var parameters := ParameterMapAt(data, pos + 1);
    if parameters.result.Err? then Fail(parameters)
    else
      var params := parameters.result.value;
      match R.FindBuilderFunctionByEventCode(Get(params, 253))
      case Err(e) => Read(Err(e), parameters.pos)
      case Ok(None) => Read(Ok(UnhandledGameEvent(params)), parameters.pos)
      case Ok(Some(builder)) => Read(R.Build(builder, params), parameters.pos)
  }

  /** buildOperationResponseGameEvent: three bytes skipped, one tagged value decoded and
      dropped, then the parameter map, always unhandled. */
  function OperationResponseGameEventAt(data: seq<byte>, pos: nat): (r: Read<GamePacket>)
  {
    var someValue := TaggedValue(data, pos + 3);
    if someValue.result.Err? then Fail(someValue)
    else
      var parameters := ParameterMapAt(data, someValue.pos);
      if parameters.result.Err? then Fail(parameters)
      else Read(Ok(UnhandledGameEvent(parameters.result.value)), parameters.pos)
  }

  /** buildGamePacket: the category is the byte at cursor + 1. */
  function GamePacketAt(data: seq<byte>, pos: nat): (r: Read<GamePacket>)
  {
    var messageType := UnsignedAt(data, pos, 1, 1);
    if messageType.result.Err? then Fail(messageType)
    else
      var category := messageType.result.value;
      if category == MessageType.OperationRequest.Code() then OperationRequestEventAt(data, messageType.pos)
      else if category == Event.Code() then EventGamePacketAt(data, messageType.pos)
      else if category == OtherOperationResponse.Code() || category == MessageType.OperationResponse.Code() then
        OperationResponseGameEventAt(data, messageType.pos)
      else Read(Ok(UnhandledGameEvent(map[])), messageType.pos)
  }

  // ---------------------------------------------------------------------------
  // Routing and reassembly

  /** What handling a command returns, where it leaves the command's cursor, and the
      states of the cached holders afterwards. */
  datatype Outcome = Outcome(result: Result<AlbionPacket>, pos: nat, cache: map<int, Assembly>)

  predicate CacheWellFormed(cache: map<int, Assembly>)
  {
    forall k :: k in cache ==> WellFormed(cache[k])
  }

  function AsGame(r: Result<GamePacket>): (a: Result<AlbionPacket>)
    ensures a.Ok? <==> r.Ok?
    ensures a.Ok? ==> a.value == Game(r.value)
    ensures a.Err? ==> a.error == r.error
  {
    match r
    case Ok(p) => Ok(Game(p))
    case Err(e) => Err(e)
  }

  /** The holder state after this fragment: the cached one with the payload added, or a
      new one. */
  function Updated(cache: map<int, Assembly>, info: FragmentInfo, payload: seq<byte>): (a: Assembly)
    requires CacheWellFormed(cache)
    ensures WellFormed(a)
  {
    if info.sequenceNumber in cache then
      WithFragmentEffect(cache[info.sequenceNumber], info.fragmentNumber, payload);
      WithFragment(cache[info.sequenceNumber], info.fragmentNumber, payload)
    else NewAssembly(info, payload)
  }

  /** handleFragmentCommand: the 20-byte header, then the rest of the command as the
      payload of that fragment; a completed message is decoded from its first byte. */
  function FragmentOutcome(cache: map<int, Assembly>, data: seq<byte>, pos: nat): (o: Outcome)
    requires CacheWellFormed(cache)
    ensures CacheWellFormed(o.cache)
  {
    var info := FragmentInfoAt(data, pos);
    if info.result.Err? then Outcome(Err(info.result.error), info.pos, cache)
    else
      var handled := FragmentHandled(cache, info.result.value, data[info.pos..]);
      Outcome(handled.0, info.pos, handled.1)
  }

  /** What handling a fragment with this header and payload returns, and the cache it
      leaves. */
  function FragmentHandled(cache: map<int, Assembly>, fragmentInfo: FragmentInfo, payload: seq<byte>): (h: (Result<AlbionPacket>, map<int, Assembly>))
    requires CacheWellFormed(cache)
    ensures CacheWellFormed(h.1)
  {
    var rest := Reassembled(cache, fragmentInfo, payload);
    var result := if rest.message.Some? then AsGame(GamePacketAt(rest.message.value, 0).result)
                  else Ok(Plain(PacketType.Fragment));
    (result, rest.cache)
  }

  /** The completed message, if any, and the cache after storing one fragment. */
  datatype Reassembly = Reassembly(message: Option<seq<byte>>, cache: map<int, Assembly>)

  /** The fragment joins its holder; a complete holder leaves the cache and yields its
      fragments joined, an incomplete one is stored back. */
  function Reassembled(cache: map<int, Assembly>, fragmentInfo: FragmentInfo, payload: seq<byte>): (o: Reassembly)
    requires CacheWellFormed(cache)
    ensures CacheWellFormed(o.cache)
  {
    var holder := Updated(cache, fragmentInfo, payload);
    if IsComplete(holder) then Reassembly(Some(Concatenated(holder)), cache - {fragmentInfo.sequenceNumber})
    else Reassembly(None, cache[fragmentInfo.sequenceNumber := holder])
  }

  /** BuildGamePacketFromPhotoCommand. A reliable command's errors propagate. An
      unreliable one decodes the first 4 body bytes as a cursor of their own: taking
      them may throw, decoding them never does (its errors give OTHER). */
  function CommandOutcome(commandType: int, data: seq<byte>, pos: nat, cache: map<int, Assembly>): (o: Outcome)
    requires CacheWellFormed(cache)
    ensures CacheWellFormed(o.cache)
  {
    if commandType == ReliableType.Code() then
      var packet := GamePacketAt(data, pos);
      Outcome(AsGame(packet.result), packet.pos, cache)
    else if commandType == UnreliableType.Code() then
      var test := RegionAt(data, pos, Some(4));
      if test.result.Err? then Outcome(Err(test.result.error), test.pos, cache)
      else
        var packet := GamePacketAt(test.result.value, 0);
        Outcome(if packet.result.Ok? then Ok(Game(packet.result.value)) else Ok(Plain(PacketType.Other)), test.pos, cache)
    else if commandType == FragmentType.Code() then FragmentOutcome(cache, data, pos)
    else Outcome(Ok(Plain(PacketType.Other)), pos, cache)
  }

  /** Once the header is read, a fragment command is handled on the rest of its bytes. */
  lemma FragmentOutcomeAfterHeader(cache: map<int, Assembly>, data: seq<byte>, pos: nat, info: FragmentInfo, next: nat,
                                   payload: seq<byte>, handled: (Result<AlbionPacket>, map<int, Assembly>))
    requires CacheWellFormed(cache) && FragmentInfoAt(data, pos) == Read(Ok(info), next)
    requires RestFrom(data, next) == Ok(payload) && handled == FragmentHandled(cache, info, payload)
    ensures FragmentOutcome(cache, data, pos) == Outcome(handled.0, next, handled.1)
  {
  }

  lemma RemovedAfterUpdate(m: map<int, Assembly>, k: int, v: Assembly)
    ensures (if k in m then m[k := v] else m) - {k} == m - {k}
  {
  }

  lemma StoredAfterUpdate(m: map<int, Assembly>, k: int, v: Assembly)
    ensures (if k in m then m[k := v] else m)[k := v] == m[k := v]
  {
  }

  // ---------------------------------------------------------------------------

  class PacketFactory {
    const fragmentsHolderCache: FragmentsHolderCache

    ghost predicate Valid()
      reads this, fragmentsHolderCache, fragmentsHolderCache.fragmentsHolderByFragmentNumber.Values
    {
      fragmentsHolderCache.Valid()
    }

    /** The states of the holders waiting for more fragments. */
    function Pending(): map<int, Assembly>
      reads this, fragmentsHolderCache, fragmentsHolderCache.fragmentsHolderByFragmentNumber.Values
    {
      fragmentsHolderCache.Assemblies()
    }

    constructor ()
      ensures Valid() && fresh(fragmentsHolderCache) && Pending() == map[]
    {
      fragmentsHolderCache := new FragmentsHolderCache();
    }

    method BuildGamePacketFromPhotoCommand(command: PhotonCommand) returns (r: Result<AlbionPacket>)
      requires command.data.Valid() && Valid()
      modifies command.data`cursorPosition, fragmentsHolderCache,
               fragmentsHolderCache.fragmentsHolderByFragmentNumber.Values
      ensures Valid()
      ensures CacheWellFormed(old(Pending()))
      ensures Outcome(r, command.data.cursorPosition, Pending())
           == CommandOutcome(command.commandType, command.data.buffer, old(command.data.cursorPosition), old(Pending()))
    {
      PendingWellFormed();
      if command.commandType == ReliableType.Code() {
        var packet := BuildGamePacket(command.data);
        r := AsGame(packet);
      } else if command.commandType == UnreliableType.Code() {
        var test :- command.data.Subarray(Some(4));
        var number := test.GetBuffer();
        var result := BuildGamePacket(test);
        r := if result.Ok? then Ok(Game(result.value)) else Ok(Plain(PacketType.Other));
      } else if command.commandType == FragmentType.Code() {
        r := HandleFragmentCommand(command.data);
      } else {
        r := Ok(Plain(PacketType.Other));
      }
    }

    /** The cached states are well formed whenever the cache is valid. */
    lemma PendingWellFormed()
      requires Valid()
      ensures CacheWellFormed(Pending())
    {
    }

    method BuildPhotonCommandFromBuffer(buffer: BufferCursor) returns (r: Result<PhotonCommand>)
      requires buffer.Valid()
      modifies buffer`cursorPosition
      ensures var spec := PhotonCommandAt(buffer.buffer, old(buffer.cursorPosition));
        && buffer.cursorPosition == spec.pos
        && (r.Ok? <==> spec.result.Ok?)
        && (r.Err? ==> r.error == spec.result.error)
        && (r.Ok? ==> && fresh(r.value.data) && r.value.data.Valid() && r.value.data.cursorPosition == 0
                      && spec.result.value == Command(r.value.commandType, r.value.commandLength, r.value.data.buffer))
    {
      var photoCommandType :- buffer.ReadUInt8(0);
      var commandLength :- buffer.ReadInt32BE(3);
      buffer.MoveCursorPosition(4);
      var body :- buffer.Subarray(Some(commandLength - PhotonHeaderLengthInBytes));
      var bytes := body.GetBuffer();
      var data := new BufferCursor(bytes.value);
      r := Ok(PhotonCommand(photoCommandType, commandLength, data));
    }

    method AssertThatUdpPayloadIsValid(buffer: BufferCursor) returns (r: Result<bool>)
      requires buffer.Valid()
      ensures r == UdpPayloadValidity(buffer.buffer, buffer.cursorPosition)
    {
      var result := buffer.length > PhotonHeaderLengthInBytes;
      if result {
        var rest :- buffer.GetBuffer();
        if |rest| < 8 {
          return Err(RangeError);
        }
        var lol := Signed(rest[4..8]);
        if lol < 0 || lol > 666 {
          return Ok(false);
        }
      }
      r := Ok(buffer.length > PhotonHeaderLengthInBytes);
    }

    method HandleFragmentCommand(commandBuffer: BufferCursor) returns (r: Result<AlbionPacket>)
      requires commandBuffer.Valid() && Valid()
      modifies commandBuffer`cursorPosition, fragmentsHolderCache,
               fragmentsHolderCache.fragmentsHolderByFragmentNumber.Values
      ensures Valid()
      ensures CacheWellFormed(old(Pending()))
      ensures Outcome(r, commandBuffer.cursorPosition, Pending())
           == FragmentOutcome(old(Pending()), commandBuffer.buffer, old(commandBuffer.cursorPosition))
    {
      PendingWellFormed();
      ghost var before, start, data := Pending(), commandBuffer.cursorPosition, commandBuffer.buffer;
      var fragmentInfo :- BuildFragmentInfoFromBuffer(commandBuffer);
      assert Pending() == before;
      var payload := commandBuffer.GetBuffer();
      ghost var next := commandBuffer.cursorPosition;
      r := HandleFragment(fragmentInfo, payload.value);
      FragmentOutcomeAfterHeader(before, data, start, fragmentInfo, next, payload.value, (r, Pending()));
    }

    /** The rest of handleFragmentCommand once the header is read. */
    method HandleFragment(fragmentInfo: FragmentInfo, bytes: seq<byte>) returns (r: Result<AlbionPacket>)
      requires Valid()
      modifies fragmentsHolderCache, fragmentsHolderCache.fragmentsHolderByFragmentNumber.Values
      ensures Valid()
      ensures CacheWellFormed(old(Pending()))
      ensures (r, Pending()) == FragmentHandled(old(Pending()), fragmentInfo, bytes)
    {
      PendingWellFormed();
      var holder, complete := StoreFragment(fragmentInfo, bytes);
      if complete {
        r := DecodeMessage(holder);
      } else {
        r := Ok(Plain(PacketType.Fragment));
      }
    }

    /** The two callbacks of handleFragmentCommand (both read `commandBuffer.getBuffer()`
        at the same cursor, so the payload is read once), the completeness test, and the
        `delete` or `set` that follows it. */
    method StoreFragment(fragmentInfo: FragmentInfo, bytes: seq<byte>) returns (holder: FragmentsHolder, complete: bool)
      requires Valid()
      modifies fragmentsHolderCache, fragmentsHolderCache.fragmentsHolderByFragmentNumber.Values
      ensures Valid() && holder.Valid()
      ensures CacheWellFormed(old(Pending()))
      ensures Reassembly(if complete then Some(Concatenated(holder.State())) else None, Pending())
           == Reassembled(old(Pending()), fragmentInfo, bytes)
    {
      PendingWellFormed();
      ghost var before := Pending();
      holder := HolderFor(fragmentInfo, bytes);
      ghost var state := Updated(before, fragmentInfo, bytes);
      ghost var expected := Reassembled(before, fragmentInfo, bytes);
      ghost var mid := Pending();
      assert mid == if fragmentInfo.sequenceNumber in before then before[fragmentInfo.sequenceNumber := state] else before;
      complete := holder.AreFragmentsComplete();
      assert Pending() == mid;
      if complete {
        fragmentsHolderCache.Delete(fragmentInfo.sequenceNumber);
        assert Pending() == mid - {fragmentInfo.sequenceNumber};
        RemovedAfterUpdate(before, fragmentInfo.sequenceNumber, state);
        assert expected == Reassembly(Some(Concatenated(state)), before - {fragmentInfo.sequenceNumber});
      } else {
        fragmentsHolderCache.Set(fragmentInfo.sequenceNumber, holder);
        assert Pending() == mid[fragmentInfo.sequenceNumber := state];
        StoredAfterUpdate(before, fragmentInfo.sequenceNumber, state);
        assert expected == Reassembly(None, before[fragmentInfo.sequenceNumber := state]);
      }
      assert holder.State() == state;
    }

    /** `this.buildGamePacket(fragmentsHolder.concatAllFragments())`: the message is its
        fragments in arrival order, decoded from the start. */
    method DecodeMessage(holder: FragmentsHolder) returns (r: Result<AlbionPacket>)
      requires holder.Valid()
      ensures r == AsGame(GamePacketAt(Concatenated(holder.State()), 0).result)
    {
      var whole := holder.ConcatAllFragments();
      var packet := BuildGamePacket(whole);
      r := AsGame(packet);
    }

    /** `getFromCache(seq).ifPresentThen(add the fragment).orElse(new holder)`: the cached
        holder of this sequence number, updated, or a new one; no other holder changes. */
    method HolderFor(fragmentInfo: FragmentInfo, bytes: seq<byte>) returns (holder: FragmentsHolder)
      requires Valid()
      modifies fragmentsHolderCache`lastFoundValue, fragmentsHolderCache.fragmentsHolderByFragmentNumber.Values
      ensures CacheWellFormed(old(Pending()))
      ensures holder.Valid() && holder.State() == Updated(old(Pending()), fragmentInfo, bytes)
      ensures fragmentsHolderCache.fragmentsHolderByFragmentNumber == old(fragmentsHolderCache.fragmentsHolderByFragmentNumber)
      ensures forall k :: k in fragmentsHolderCache.fragmentsHolderByFragmentNumber && k != fragmentInfo.sequenceNumber
                ==> fragmentsHolderCache.fragmentsHolderByFragmentNumber[k] != holder
      ensures Valid()
      ensures Pending() == if fragmentInfo.sequenceNumber in old(Pending())
                           then old(Pending())[fragmentInfo.sequenceNumber := holder.State()] else old(Pending())
    {
      PendingWellFormed();
      var cache := AddToCached(fragmentInfo.sequenceNumber, fragmentInfo.fragmentNumber, bytes);
      holder := cache.OrElseNew(fragmentInfo, bytes);
    }

    /** `getFromCache(seq).ifPresentThen(add the fragment)`. */
    method AddToCached(sequenceNumber: int, fragmentNumber: int, bytes: seq<byte>) returns (cache: FragmentsHolderCache)
      requires Valid()
      modifies fragmentsHolderCache`lastFoundValue, fragmentsHolderCache.fragmentsHolderByFragmentNumber.Values
      ensures cache == fragmentsHolderCache && Valid()
      ensures fragmentsHolderCache.fragmentsHolderByFragmentNumber == old(fragmentsHolderCache.fragmentsHolderByFragmentNumber)
      ensures fragmentsHolderCache.lastFoundValue
           == if sequenceNumber in fragmentsHolderCache.fragmentsHolderByFragmentNumber
              then fragmentsHolderCache.fragmentsHolderByFragmentNumber[sequenceNumber] else null
      ensures CacheWellFormed(old(Pending()))
      ensures Pending() == if sequenceNumber in old(Pending())
                           then old(Pending())[sequenceNumber := WithFragment(old(Pending())[sequenceNumber], fragmentNumber, bytes)]
                           else old(Pending())
    {
      PendingWellFormed();
      ghost var holders := fragmentsHolderCache.fragmentsHolderByFragmentNumber;
      ghost var before := Pending();
      cache := fragmentsHolderCache.GetFromCache(sequenceNumber);
      cache := cache.IfPresentThenAddFragment(fragmentNumber, bytes);
      if sequenceNumber in holders {
        assert forall k :: k in holders && k != sequenceNumber ==> holders[k].State() == before[k];
      }
    }

    method BuildFragmentInfoFromBuffer(buffer: BufferCursor) returns (r: Result<FragmentInfo>)
      requires buffer.Valid()
      modifies buffer`cursorPosition
      ensures Read(r, buffer.cursorPosition) == FragmentInfoAt(buffer.buffer, old(buffer.cursorPosition))
    {
      var sequenceNumber :- buffer.ReadInt32BE(0);
      var fragmentCount :- buffer.ReadInt32BE(0);
      var fragmentNumber :- buffer.ReadInt32BE(0);
      var totalLength :- buffer.ReadInt32BE(0);
      var fragmentOffset :- buffer.ReadInt32BE(0);
      r := Ok(FragmentInfo(sequenceNumber, fragmentCount, fragmentNumber, totalLength, fragmentOffset));
    }

    method BuildGamePacket(buffer: BufferCursor) returns (r: Result<GamePacket>)
      requires buffer.Valid()
      modifies buffer`cursorPosition
      ensures Read(r, buffer.cursorPosition) == GamePacketAt(buffer.buffer, old(buffer.cursorPosition))
    {
      var messageType :- buffer.ReadUInt8(1);
      if messageType == MessageType.OperationRequest.Code() {
        r := BuildOperationRequestEvent(buffer);
      } else if messageType == Event.Code() {
        r := BuildEventGamePacket(buffer);
      } else if messageType == OtherOperationResponse.Code() || messageType == MessageType.OperationResponse.Code() {
        r := BuildOperationResponseGameEvent(buffer);
      } else {
        r := Ok(UnhandledGameEvent(map[]));
      }
    }

    method BuildEventGamePacket(buffer: BufferCursor) returns (r: Result<GamePacket>)
      requires buffer.Valid()
      modifies buffer`cursorPosition
      ensures Read(r, buffer.cursorPosition) == EventGamePacketAt(buffer.buffer, old(buffer.cursorPosition))
    {
      var eventCode :- buffer.ReadUInt8(0);
      var parameters :- BuildParameterMapFromBuffer(buffer);
      if eventCode == EventGamePacketEventCode.OnEntityMove.Code() {
        parameters := parameters[252 := Integer(3)];
      }
      var builder :- E.FindBuilderFunctionByEventCode(Get(parameters, 252));
      if builder.Some? {
        r := E.Build(builder.value, parameters);
      } else {
        r := Ok(UnhandledGameEvent(parameters));
      }
    }

    method BuildOperationRequestEvent(buffer: BufferCursor) returns (r: Result<GamePacket>)
      requires buffer.Valid()
      modifies buffer`cursorPosition
      ensures Read(r, buffer.cursorPosition) == OperationRequestEventAt(buffer.buffer, old(buffer.cursorPosition))
    {
      buffer.MoveCursorPosition(1);
      var parameters :- BuildParameterMapFromBuffer(buffer);
      var eventCode := Get(parameters, 253);
      var builder :- R.FindBuilderFunctionByEventCode(eventCode);
      if builder.Some? {
        r := R.Build(builder.value, parameters);
      } else {
        r := Ok(UnhandledGameEvent(parameters));
      }
    }

    method BuildOperationResponseGameEvent(buffer: BufferCursor) returns (r: Result<GamePacket>)
      requires buffer.Valid()
      modifies buffer`cursorPosition
      ensures Read(r, buffer.cursorPosition) == OperationResponseGameEventAt(buffer.buffer, old(buffer.cursorPosition))
    {
      buffer.MoveCursorPosition(3);
      var someTypeCode :- buffer.ReadUInt8(0);
      var someValue :- Deserialize(buffer, someTypeCode);
      var parameters :- BuildParameterMapFromBuffer(buffer);
      r := Ok(UnhandledGameEvent(parameters));
    }

    method BuildParameterMapFromBuffer(eventTypeBuffer: BufferCursor) returns (r: Result<map<int, Value>>)
      requires eventTypeBuffer.Valid()
      modifies eventTypeBuffer`cursorPosition
      ensures Read(r, eventTypeBuffer.cursorPosition) == ParameterMapAt(eventTypeBuffer.buffer, old(eventTypeBuffer.cursorPosition))
    {
      var parameters: map<int, Value> := map[];
      var parameterCount :- eventTypeBuffer.ReadInt16BE(0);
      ghost var start, data := eventTypeBuffer.cursorPosition, eventTypeBuffer.buffer;
      var i := 0;
      while i < parameterCount
        invariant ParameterMapEntries(data, start, parameterCount, map[])
               == ParameterMapEntries(data, eventTypeBuffer.cursorPosition, parameterCount - i, parameters)
      {
        ghost var here, left := eventTypeBuffer.cursorPosition, parameterCount - i;
        var entry := ReadParameterEntry(eventTypeBuffer);
        if entry.Err? {
          ParameterMapEntriesFail(data, here, left, parameters);
          return Err(entry.error);
        }
        ghost var before := parameters;
        parameters := parameters[entry.value.0 := entry.value.1];
        i := i + 1;
        ParameterMapEntriesUnfold(data, here, left, parameterCount - i, before, parameters,
                                  entry.value, eventTypeBuffer.cursorPosition);
      }
      ParameterMapEntriesDone(data, eventTypeBuffer.cursorPosition, parameterCount - i, parameters);
      r := Ok(parameters);
    }
  }

  /** The body of that loop: the parameter id, its tag, then the value. */
  method ReadParameterEntry(eventTypeBuffer: BufferCursor) returns (r: Result<(int, Value)>)
    requires eventTypeBuffer.Valid()
    modifies eventTypeBuffer`cursorPosition
    ensures Read(r, eventTypeBuffer.cursorPosition) == ParameterMapEntry(eventTypeBuffer.buffer, old(eventTypeBuffer.cursorPosition))
  {
    var paramId :- eventTypeBuffer.ReadUInt8(0);
    var paramType :- eventTypeBuffer.ReadUInt8(0);
    var value :- Deserialize(eventTypeBuffer, paramType);
    r := Ok((paramId, value));
  }

  /** One turn of the parameter loop, once the entry it reads is known. */
  lemma ParameterMapEntriesUnfold(data: seq<byte>, pos: nat, count: int, rest: int, acc: map<int, Value>,
                                  updated: map<int, Value>, e: (int, Value), next: nat)
    requires count > 0 && rest == count - 1 && updated == acc[e.0 := e.1]
    requires ParameterMapEntry(data, pos) == Read(Ok(e), next)
    ensures ParameterMapEntries(data, pos, count, acc) == ParameterMapEntries(data, next, rest, updated)
  {
  }

  /** The parameter loop ends once no entry is left. */
  lemma ParameterMapEntriesDone(data: seq<byte>, pos: nat, count: int, acc: map<int, Value>)
    requires count <= 0
    ensures ParameterMapEntries(data, pos, count, acc) == Read(Ok(acc), pos)
  {
  }

  /** An entry that cannot be read ends the parameter loop with its error. */
  lemma ParameterMapEntriesFail(data: seq<byte>, pos: nat, count: int, acc: map<int, Value>)
    requires count > 0 && ParameterMapEntry(data, pos).result.Err?
    ensures ParameterMapEntries(data, pos, count, acc) == Fail(ParameterMapEntry(data, pos))
  {
  }
}
