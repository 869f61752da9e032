/** EventGamePacketFactory (src/domain/factories/EventGamePacketFactory.ts): the
    registry from event code to builder, and the builders that turn an event's
    parameter map into a game packet. A builder that throws gives an `Err`;
    every builder only reads the map. */
module EventGamePacketFactory {
  import opened Bytes
  import opened Results
  import opened Protocol16
  import opened JsValues
  import opened GamePacketModels

  datatype EventBuilder =
    | BuildOnMove | BuildUserEnter | BuildUserLeft | BuildOnMobAppears
    | BuildOnHarvestableAppears | BuildOnSystemBuildingAppears | BuildOnHarvestableListAppears
  {
    /** The game packet type each builder announces. */
    function BuiltType(): GamePacketType
    {
      match this
      case BuildOnMove => GamePacketType.OnMove
      case BuildUserEnter => GamePacketType.UserEnter
      case BuildUserLeft => GamePacketType.UserLeft
      case BuildOnMobAppears => GamePacketType.OnMobAppears
      case BuildOnHarvestableAppears => GamePacketType.OnHarvestableAppears
      case BuildOnSystemBuildingAppears => GamePacketType.OnSystemBuildingAppears
      case BuildOnHarvestableListAppears => GamePacketType.OnHarvestableAppearsList
    }
  }

  /** eventGamePacketBuildersByEventCode. */
  const BuildersByEventCode: map<int, EventBuilder> := map[
    EventGamePacketEventCode.OnEntityMove.Code() := BuildOnMove,
    EventGamePacketEventCode.OnUserEnter.Code() := BuildUserEnter,
    EventGamePacketEventCode.OnUserLeave.Code() := BuildUserLeft,
    EventGamePacketEventCode.OnMobAppears.Code() := BuildOnMobAppears,
    EventGamePacketEventCode.OnNewHarvestableObject.Code() := BuildOnHarvestableAppears,
    EventGamePacketEventCode.OnNewSystemBuildingAppears.Code() := BuildOnSystemBuildingAppears,
    EventGamePacketEventCode.OnNewHarvestableObjectList.Code() := BuildOnHarvestableListAppears
  ]

  /** findBuilderFunctionByEventCode with the value found under parameter 252: the
      Map's keys are numbers, so only a number equal to a code finds a builder (a
      bigint never does). Float and Double hold only their bits here. */
  function FindBuilderFunctionByEventCode(eventCode: Option<Value>): (r: Result<Option<EventBuilder>>)
    ensures r.Err? ==> eventCode.Some? && (eventCode.value.Float? || eventCode.value.Double?)
  {
    if eventCode.None? then Ok(None)
    else
      match eventCode.value
      case Byte(n) => Ok(Lookup(n))
      case Short(n) => Ok(Lookup(n))
      case Integer(n) => Ok(Lookup(n))
      case Float(_) => Err(CoercionNotModelled)
      case Double(_) => Err(CoercionNotModelled)
      case _ => Ok(None)
  }

  function Lookup(code: int): (b: Option<EventBuilder>)
    ensures b.Some? <==> code in BuildersByEventCode
    ensures b.Some? ==> b.value == BuildersByEventCode[code]
  {
    if code in BuildersByEventCode then Some(BuildersByEventCode[code]) else None
  }

  /** The registry covers exactly seven of the nine known event codes: random dungeons
      and damage have no builder, and no builder is registered twice. */
  lemma RegistryCoverage(e: EventGamePacketEventCode)
    ensures FindBuilderFunctionByEventCode(Some(Integer(e.Code()))).Ok?
    ensures FindBuilderFunctionByEventCode(Some(Integer(e.Code()))).value.None? <==>
              e == OnNewRandomDungeon || e == OnDamageReceived
  {
  }

  /** Each builder is registered under exactly one code, with the event its name says. */
  lemma RegistryIsInjective(c: int, d: int)
    requires c in BuildersByEventCode && d in BuildersByEventCode
    requires BuildersByEventCode[c] == BuildersByEventCode[d]
    ensures c == d
  {
  }

  /** A code decoded as a byte, a short or an int finds the same builder whatever its
      width; a bigint, a string or a missing code finds none. */
  lemma LookupIgnoresNumericWidth(n: int)
    ensures FindBuilderFunctionByEventCode(Some(Byte(n))) == FindBuilderFunctionByEventCode(Some(Short(n)))
                                                           == FindBuilderFunctionByEventCode(Some(Integer(n)))
                                                           == Ok(Lookup(n))
    ensures FindBuilderFunctionByEventCode(Some(Long(n))) == Ok(None)
    ensures FindBuilderFunctionByEventCode(None) == Ok(None)
  {
  }

  // ---------------------------------------------------------------------------
  // Builders

  /** buildGameEventOnMove: parameter 1 as bytes, two little-endian 32-bit floats at
      offsets 9 and 13 (each DataView throws a RangeError when its four bytes are not
      there), and the string form of parameter 0, whose toString throws when it is
      missing. */
  function BuildGameEventOnMove(parameters: map<int, Value>): (r: Result<GamePacket>)
    ensures r.Ok? <==>
              && Uint8ArrayFrom(Get(parameters, 1)).Ok?
              && |Uint8ArrayFrom(Get(parameters, 1)).value| >= 17
              && Stringified(Get(parameters, 0)).Ok?
    ensures r.Ok? ==> r.value.GameEventOnMove? && r.value.id == Stringified(Get(parameters, 0)).value
    ensures r.Ok? ==> r.value.id.Some? && r.value.id.value.String?
  {
    var entityId := Get(parameters, 0);
    var bytes :- Uint8ArrayFrom(Get(parameters, 1));
    if |bytes| < 9 + 4 then Err(RangeError)
    else
      var position0 := Float(UnsignedLE(bytes[9 .. 9 + 4]));
      if |bytes| < 13 + 4 then Err(RangeError)
      else
        var position1 := Float(UnsignedLE(bytes[13 .. 13 + 4]));
        var id :- Stringified(entityId);
        Ok(GameEventOnMove(Some(position0), Some(position1), id))
  }

  /** The move event reads back the positions written little-endian at 9 and 13; the
      id is the string form of parameter 0, or its toString error. */
  lemma OnMoveReadsLittleEndianPositions(parameters: map<int, Value>, head: seq<byte>, x: nat, y: nat, tail: seq<byte>)
    requires |head| == 9 && x < Pow256(4) && y < Pow256(4)
    requires 1 in parameters && parameters[1] == ByteArray(head + EncodeUnsignedLE(x, 4) + EncodeUnsignedLE(y, 4) + tail)
    ensures BuildGameEventOnMove(parameters) ==
              match Stringified(Get(parameters, 0))
              case Ok(id) => Ok(GameEventOnMove(Some(Float(x)), Some(Float(y)), id))
              case Err(e) => Err(e)
  {
    var bytes := head + EncodeUnsignedLE(x, 4) + EncodeUnsignedLE(y, 4) + tail;
    assert bytes[9 .. 13] == EncodeUnsignedLE(x, 4);
    assert bytes[13 .. 17] == EncodeUnsignedLE(y, 4);
  }

  /** Fewer than 17 bytes under parameter 1 make the move event throw a RangeError. */
  lemma OnMoveRejectsShortBuffers(parameters: map<int, Value>)
    requires Uint8ArrayFrom(Get(parameters, 1)).Ok? && |Uint8ArrayFrom(Get(parameters, 1)).value| < 17
    ensures BuildGameEventOnMove(parameters) == Err(RangeError)
  {
  }

  /** buildGameEventUserLeft. */
  function BuildGameEventUserLeft(parameters: map<int, Value>): (r: Result<GamePacket>)
    ensures r.Ok? && r.value.GameEventUserLeft? && r.value.id == Get(parameters, 0)
  {
    Ok(GameEventUserLeft(Get(parameters, 0)))
  }

  /** buildGameEventOnMobAppears: the position is parameter 7's first two elements. The
      source passes parameter 33 where the constructor expects the rarity level and
      parameter 19 where it expects the enchant level, so the packet's rarityLevel is
      parameter 33 and its enchantLevel parameter 19. */
  function BuildGameEventOnMobAppears(parameters: map<int, Value>): (r: Result<GamePacket>)
    ensures r.Ok? <==> At(Get(parameters, 7), 0).Ok?
    ensures r.Ok? ==> r.value.GameEventOnMobAppears? && r.value.id == Get(parameters, 0)
    ensures r.Ok? ==> r.value.rarityLevel == Get(parameters, 33) && r.value.enchantLevel == Get(parameters, 19)
  {
    var positionX :- At(Get(parameters, 7), 0);
    // `at` fails on the whole value or not at all, so the second read cannot throw.
    var positionY := At(Get(parameters, 7), 1).value;
    var enchantLevel := Get(parameters, 33);
    var rarityLevel := Get(parameters, 19);
    Ok(GameEventOnMobAppears(positionX, positionY, Get(parameters, 0), enchantLevel, rarityLevel))
  }

  /** buildGameEventOnHarvestableAppears: tier 0 and type OTHER are fixed; parameter 5
      is read and ignored. */
  function BuildGameEventOnHarvestableAppears(parameters: map<int, Value>): (r: Result<GamePacket>)
    ensures r.Ok? <==> At(Get(parameters, 8), 0).Ok?
    ensures r.Ok? ==> r.value.GameEventOnHarvestableAppears?
    ensures r.Ok? ==>
              var h := r.value.harvestable;
              && h.id == Get(parameters, 0) && h.tier == Some(Integer(0)) && h.harvestableType == HarvestableType.Other
              && h.unitsHarvestedPerClick == Get(parameters, 10) && h.enchantLevel == Get(parameters, 11)
  {
    var positionX :- At(Get(parameters, 8), 0);
    // `at` fails on the whole value or not at all, so the second read cannot throw.
    var positionY := At(Get(parameters, 8), 1).value;
    var enchantLevel := Get(parameters, 11);
    var size := Get(parameters, 10);
    Ok(GameEventOnHarvestableAppears(
      Harvestable(positionX, positionY, Get(parameters, 0), Some(Integer(0)), size, HarvestableType.Other, enchantLevel)))
  }

  /** buildGameEventOnSystemBuildingAppears. */
  function BuildGameEventOnSystemBuildingAppears(parameters: map<int, Value>): (r: Result<GamePacket>)
    ensures r.Ok? <==> At(Get(parameters, 1), 0).Ok?
    ensures r.Ok? ==>
              r.value.GameEventOnSystemBuildingAppears? && r.value.id == Get(parameters, 0) &&
              r.value.name == Get(parameters, 3)
  {
    var positionX :- At(Get(parameters, 1), 0);
    // `at` fails on the whole value or not at all, so the second read cannot throw.
    var positionY := At(Get(parameters, 1), 1).value;
    var name := Get(parameters, 3);
    Ok(GameEventOnSystemBuildingAppears(positionX, positionY, Get(parameters, 0), name))
  }

  /** buildGameEventUserEnter. */
  function BuildGameEventUserEnter(parameters: map<int, Value>): (r: Result<GamePacket>)
    ensures r.Ok? <==> At(Get(parameters, 14), 0).Ok?
    ensures r.Ok? ==> r.value.GameEventOnUserEnter? && r.value.id == Get(parameters, 0)
  {
    var positionX :- At(Get(parameters, 14), 0);
    // `at` fails on the whole value or not at all, so the second read cannot throw.
    var positionY := At(Get(parameters, 14), 1).value;
    Ok(GameEventOnUserEnter(positionX, positionY, Get(parameters, 0)))
  }

  /** The builders that read a position pair take an array's first two elements, in
      order, and report undefined for a missing pair. */
  lemma PositionPairs(parameters: map<int, Value>, k: int, es: seq<Value>)
    requires k in {7, 8, 1, 14} && k in parameters && parameters[k] == Array(es) && |es| >= 2
    ensures k == 7 ==> BuildGameEventOnMobAppears(parameters).value.posX == Some(es[0])
                       && BuildGameEventOnMobAppears(parameters).value.posY == Some(es[1])
    ensures k == 8 ==> BuildGameEventOnHarvestableAppears(parameters).value.harvestable.posX == Some(es[0])
                       && BuildGameEventOnHarvestableAppears(parameters).value.harvestable.posY == Some(es[1])
    ensures k == 1 ==> BuildGameEventOnSystemBuildingAppears(parameters).value.posX == Some(es[0])
                       && BuildGameEventOnSystemBuildingAppears(parameters).value.posY == Some(es[1])
    ensures k == 14 ==> BuildGameEventUserEnter(parameters).value.posX == Some(es[0])
                        && BuildGameEventUserEnter(parameters).value.posY == Some(es[1])
  {
  }

  /** A missing or null position parameter gives undefined coordinates instead of a throw. */
  lemma MissingPositionsAreUndefined(parameters: map<int, Value>)
    requires 14 !in parameters
    ensures BuildGameEventUserEnter(parameters) == Ok(GameEventOnUserEnter(None, None, Get(parameters, 0)))
  {
  }

  /** buildGameEventOnHarvestableListAppears: parameters 0, 4, 1 and 2 are spread in
      that order (each throws when it is not iterable); parameter 3 is indexed as is.
      One harvestable is built per id. */
  function BuildGameEventOnHarvestableListAppears(parameters: map<int, Value>): (r: Result<GamePacket>)
    ensures r.Ok? ==> r.value.GameEventOnHarvestableAppearsList?
    ensures r.Ok? ==> Spread(Get(parameters, 0)).Ok? && |r.value.harvestables| == |Spread(Get(parameters, 0)).value|
    ensures r.Ok? <==>
              && Spread(Get(parameters, 0)).Ok? && Spread(Get(parameters, 4)).Ok?
              && Spread(Get(parameters, 1)).Ok? && Spread(Get(parameters, 2)).Ok?
              && forall k :: 0 <= k < |Spread(Get(parameters, 0)).value| ==>
                   EntryBuildable(Get(parameters, 3), Spread(Get(parameters, 1)).value, k)
    ensures r.Ok? ==>
              r.value.harvestables == HarvestableList(Spread(Get(parameters, 0)).value, Get(parameters, 3),
                                                      Spread(Get(parameters, 4)).value, Spread(Get(parameters, 1)).value,
                                                      Spread(Get(parameters, 2)).value, 0).value
  {
    var ids :- Spread(Get(parameters, 0));
    var positions := Get(parameters, 3);
    var unitsHarvestedPerClick :- Spread(Get(parameters, 4));
    var randoms1 :- Spread(Get(parameters, 1));
    var tiers :- Spread(Get(parameters, 2));
    var harvestables :- HarvestableList(ids, positions, unitsHarvestedPerClick, randoms1, tiers, 0);
    Ok(GameEventOnHarvestableAppearsList(harvestables))
  }

  /** The harvestable built for id index k: the k-th id, the (2k)-th and (2k+1)-th
      position, the k-th tier and units, the type of the k-th type number, and
      enchant level 0. */
  predicate HarvestableFor(h: Harvestable, ids: seq<Value>, positions: Option<Value>, units: seq<Value>,
                           types: seq<Value>, tiers: seq<Value>, k: nat)
    requires k < |ids|
  {
    && h.id == Some(ids[k])
    && Index(positions, 2 * k).Ok? && h.posX == Index(positions, 2 * k).value
    && Index(positions, 2 * k + 1).Ok? && h.posY == Index(positions, 2 * k + 1).value
    && h.tier == Nth(tiers, k) && h.unitsHarvestedPerClick == Nth(units, k)
    && NumericValue(Nth(types, k)).Ok?
    && h.harvestableType == HarvestableTypeByTypeNumber(NumericValue(Nth(types, k)).value)
    && h.enchantLevel == Some(Integer(0))
  }

  /** Id index k neither reads its position from undefined or null nor compares a type
      number that is not modelled. */
  predicate EntryBuildable(positions: Option<Value>, types: seq<Value>, k: nat)
  {
    Index(positions, 2 * k).Ok? && NumericValue(Nth(types, k)).Ok?
  }

  /** `ids.map(...)` from index `from` on: one harvestable per id, and the first entry
      that throws ends it. */
  function HarvestableList(ids: seq<Value>, positions: Option<Value>, units: seq<Value>, types: seq<Value>,
                           tiers: seq<Value>, from: nat): (r: Result<seq<Harvestable>>)
    requires from <= |ids|
    decreases |ids| - from
    ensures r.Ok? ==> |r.value| == |ids| - from
    ensures r.Ok? ==> forall i :: 0 <= i < |r.value| ==> HarvestableFor(r.value[i], ids, positions, units, types, tiers, from + i)
    ensures r.Ok? <==> forall k :: from <= k < |ids| ==> EntryBuildable(positions, types, k)
    ensures r.Err? ==> from < |ids| && (r.error == TypeError <==> positions.None? || positions.value.Null?)
  {
    if from >= |ids| then Ok([])
    else
      assert EntryBuildable(positions, types, from) <==>
             Index(positions, 2 * from).Ok? && NumericValue(Nth(types, from)).Ok?;
      var posX :- Index(positions, 2 * from);
      var posY := Index(positions, 2 * from + 1).value;
      var harvestableTypeNumber :- NumericValue(Nth(types, from));
      var rest :- HarvestableList(ids, positions, units, types, tiers, from + 1);
      var h := Harvestable(posX, posY, Some(ids[from]), Nth(tiers, from), Nth(units, from),
                           HarvestableTypeByTypeNumber(harvestableTypeNumber), Some(Integer(0)));
      assert HarvestableFor(h, ids, positions, units, types, tiers, from);
      assert forall i :: 0 < i < |[h] + rest| ==> ([h] + rest)[i] == rest[i - 1];
      Ok([h] + rest)
  }

  /** An empty id list gives an empty packet even when the positions are missing,
      because positions are only indexed per id. */
  lemma EmptyHarvestableList(parameters: map<int, Value>)
    requires 0 in parameters && parameters[0] == Array([])
    requires forall k :: k in {4, 1, 2} ==> k in parameters && parameters[k] == Array([])
    requires 3 !in parameters
    ensures BuildGameEventOnHarvestableListAppears(parameters) == Ok(GameEventOnHarvestableAppearsList([]))
  {
    assert 4 in {4, 1, 2} && 1 in {4, 1, 2} && 2 in {4, 1, 2};
  }

  /** With at least one id, missing positions throw a TypeError. */
  lemma MissingPositionsThrow(ids: seq<Value>, units: seq<Value>, types: seq<Value>, tiers: seq<Value>)
    requires |ids| > 0
    ensures HarvestableList(ids, None, units, types, tiers, 0) == Err(TypeError)
  {
  }

  /** getHarvestableTypeByTypeNumber over the number a comparison sees (`None` is NaN). */
  function HarvestableTypeByTypeNumber(harvestableType: Option<int>): HarvestableType
  {
    if harvestableType.None? then HarvestableType.Other
    else
      var n := harvestableType.value;
      if n >= 0 && n <= 5 then Log
      else if n >= 6 && n <= 10 then Rock
      else if n >= 11 && n <= 14 then Fiber
      else if n >= 15 && n <= 22 then Hide
      else if n >= 23 && n <= 27 then Ore
      else HarvestableType.Other
  }

  /** The type numbers 0..27 split into five consecutive ranges, one per resource, and
      every other number (and NaN) is OTHER. */
  lemma HarvestableTypeRanges(n: Option<int>)
    ensures HarvestableTypeByTypeNumber(n) == Log <==> n.Some? && 0 <= n.value <= 5
    ensures HarvestableTypeByTypeNumber(n) == Rock <==> n.Some? && 6 <= n.value <= 10
    ensures HarvestableTypeByTypeNumber(n) == Fiber <==> n.Some? && 11 <= n.value <= 14
    ensures HarvestableTypeByTypeNumber(n) == Hide <==> n.Some? && 15 <= n.value <= 22
    ensures HarvestableTypeByTypeNumber(n) == Ore <==> n.Some? && 23 <= n.value <= 27
    ensures HarvestableTypeByTypeNumber(n) == HarvestableType.Other <==> n.None? || n.value < 0 || n.value > 27
  {
  }

  /** A null type number compares as 0, so it is classified as a log; a missing one as OTHER. */
  lemma NullTypeNumberIsLog()
    ensures HarvestableTypeByTypeNumber(NumericValue(Some(Null)).value) == Log
    ensures HarvestableTypeByTypeNumber(NumericValue(None).value) == HarvestableType.Other
  {
  }

  /** The registered builder applied; every builder produces a packet of the type its
      registry entry stands for, so an event code decides the packet type it builds. */
  function Build(builder: EventBuilder, parameters: map<int, Value>): (r: Result<GamePacket>)
    ensures r.Ok? ==> r.value.GamePacketTypeOf() == builder.BuiltType()
  {
    match builder
    case BuildOnMove => BuildGameEventOnMove(parameters)
    case BuildUserEnter => BuildGameEventUserEnter(parameters)
    case BuildUserLeft => BuildGameEventUserLeft(parameters)
    case BuildOnMobAppears => BuildGameEventOnMobAppears(parameters)
    case BuildOnHarvestableAppears => BuildGameEventOnHarvestableAppears(parameters)
    case BuildOnSystemBuildingAppears => BuildGameEventOnSystemBuildingAppears(parameters)
    case BuildOnHarvestableListAppears => BuildGameEventOnHarvestableListAppears(parameters)
  }
}
