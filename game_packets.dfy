/** The packet kinds and protocol codes of src/domain/models/GamePacketModels.ts.
    Packet fields hold the decoded values they were built from: `None` is
    JavaScript's undefined (a parameter or element that is not there). */
module GamePacketModels {
  import opened Results
  import opened Protocol16
  import Cursor

  datatype PacketType = Fragment | Data | Other

  datatype GamePacketType =
    | SelfUserMove | OnMove | UserLeft | UserEnter | OnMobAppears | OnHarvestableAppears
    | OnSystemBuildingAppears | OnHarvestableAppearsList | Response | Other

  datatype HarvestableType = Fiber | Hide | Log | Ore | Rock | Other

  /** One resource node; GameEventOnHarvestableAppears carries exactly these fields. */
  datatype Harvestable = Harvestable(
    posX: Option<Value>, posY: Option<Value>, id: Option<Value>, tier: Option<Value>,
    unitsHarvestedPerClick: Option<Value>, harvestableType: HarvestableType, enchantLevel: Option<Value>)

  datatype GamePacket =
    | GameEventOnMove(posX: Option<Value>, posY: Option<Value>, id: Option<Value>)
    | UnhandledGameEvent(parameters: map<int, Value>)
    | GameEventUserLeft(id: Option<Value>)
    | GameEventOnMobAppears(posX: Option<Value>, posY: Option<Value>, id: Option<Value>,
                            rarityLevel: Option<Value>, enchantLevel: Option<Value>)
    | GameEventOnHarvestableAppears(harvestable: Harvestable)
    | GameEventOnSystemBuildingAppears(posX: Option<Value>, posY: Option<Value>, id: Option<Value>, name: Option<Value>)
    | GameEventOnHarvestableAppearsList(harvestables: seq<Harvestable>)
    | GameEventOnUserEnter(posX: Option<Value>, posY: Option<Value>, id: Option<Value>)
    | OperationRequestSelfUserMove(posX: Option<Value>, posY: Option<Value>)
  {
    /** The type each constructor passes to GamePacket's constructor. */
    function GamePacketTypeOf(): GamePacketType
    {
      match this
      case GameEventOnMove(_, _, _) => GamePacketType.OnMove
      case UnhandledGameEvent(_) => GamePacketType.Other
      case GameEventUserLeft(_) => GamePacketType.UserLeft
      case GameEventOnMobAppears(_, _, _, _, _) => GamePacketType.OnMobAppears
      case GameEventOnHarvestableAppears(_) => GamePacketType.OnHarvestableAppears
      case GameEventOnSystemBuildingAppears(_, _, _, _) => GamePacketType.OnSystemBuildingAppears
      case GameEventOnHarvestableAppearsList(_) => GamePacketType.OnHarvestableAppearsList
      case GameEventOnUserEnter(_, _, _) => GamePacketType.UserEnter
      case OperationRequestSelfUserMove(_, _) => GamePacketType.SelfUserMove
    }
  }

  /** `new UnhandledGameEvent()`: the parameter map defaults to empty. */
  function DefaultUnhandledGameEvent(): (p: GamePacket)
    ensures p.UnhandledGameEvent? && p.parameters == map[] && p.GamePacketTypeOf() == GamePacketType.Other
  {
    UnhandledGameEvent(map[])
  }

  /** An AlbionPacket is either a bare packet type or a GamePacket, which always has type DATA. */
  datatype AlbionPacket = Plain(kind: PacketType) | Game(packet: GamePacket)
  {
    function PacketTypeOf(): PacketType
    {
      match this
      case Plain(k) => k
      case Game(_) => PacketType.Data
    }
  }

  /** Every game packet has packet type DATA, and only game packets and the bare
      DATA packet do. */
  lemma GamePacketsAreData(p: AlbionPacket)
    ensures p.Game? ==> p.PacketTypeOf() == PacketType.Data
    ensures p.PacketTypeOf() == PacketType.Data <==> p.Game? || p == Plain(PacketType.Data)
  {
  }

  /** Each packet kind has its own GamePacketType, so the type identifies the kind. */
  lemma GamePacketTypeIdentifiesKind(p: GamePacket, q: GamePacket)
    requires p.GamePacketTypeOf() == q.GamePacketTypeOf()
    ensures p.UnhandledGameEvent? == q.UnhandledGameEvent?
    ensures p.GameEventOnMove? == q.GameEventOnMove?
    ensures p.GameEventUserLeft? == q.GameEventUserLeft?
    ensures p.GameEventOnMobAppears? == q.GameEventOnMobAppears?
    ensures p.GameEventOnHarvestableAppears? == q.GameEventOnHarvestableAppears?
    ensures p.GameEventOnSystemBuildingAppears? == q.GameEventOnSystemBuildingAppears?
    ensures p.GameEventOnHarvestableAppearsList? == q.GameEventOnHarvestableAppearsList?
    ensures p.GameEventOnUserEnter? == q.GameEventOnUserEnter?
    ensures p.OperationRequestSelfUserMove? == q.OperationRequestSelfUserMove?
  {
  }

  // ---------------------------------------------------------------------------
  // Protocol codes

  /** PhotonCommandType: OTHER_TYPE takes the next value after FRAGMENT_TYPE. */
  datatype PhotonCommandType = Lol | ReliableType | UnreliableType | FragmentType | OtherType
  {
    function Code(): int
    {
      match this
      case Lol => 5
      case ReliableType => 6
      case UnreliableType => 7
      case FragmentType => 8
      case OtherType => 9
    }
  }

  function PhotonCommandTypeOf(c: int): (t: Option<PhotonCommandType>)
    ensures t.Some? <==> 5 <= c <= 9
    ensures t.Some? ==> t.value.Code() == c
  {
    if c == 5 then Some(Lol)
    else if c == 6 then Some(ReliableType)
    else if c == 7 then Some(UnreliableType)
    else if c == 8 then Some(FragmentType)
    else if c == 9 then Some(OtherType)
    else None
  }

  lemma PhotonCommandTypeCodes(t: PhotonCommandType)
    ensures PhotonCommandTypeOf(t.Code()) == Some(t)
  {
  }

  /** MessageType: two values both mean an operation response. */
  datatype MessageType = OperationRequest | Event | OtherOperationResponse | OperationResponse
  {
    function Code(): int
    {
      match this
      case OperationRequest => 2
      case Event => 4
      case OtherOperationResponse => 3
      case OperationResponse => 7
    }
  }

  function MessageTypeOf(c: int): (t: Option<MessageType>)
    ensures t.Some? <==> c in {2, 3, 4, 7}
    ensures t.Some? ==> t.value.Code() == c
  {
    if c == 2 then Some(MessageType.OperationRequest)
    else if c == 4 then Some(Event)
    else if c == 3 then Some(OtherOperationResponse)
    else if c == 7 then Some(MessageType.OperationResponse)
    else None
  }

  lemma MessageTypeCodes(t: MessageType)
    ensures MessageTypeOf(t.Code()) == Some(t)
  {
  }

  datatype EventGamePacketEventCode =
    | OnEntityMove | OnUserLeave | OnUserEnter | OnNewHarvestableObjectList | OnNewHarvestableObject
    | OnNewSystemBuildingAppears | OnMobAppears | OnNewRandomDungeon | OnDamageReceived
  {
    function Code(): int
    {
      match this
      case OnEntityMove => 3
      case OnUserLeave => 1
      case OnUserEnter => 29
      case OnNewHarvestableObjectList => 39
      case OnNewHarvestableObject => 40
      case OnNewSystemBuildingAppears => 45
      case OnMobAppears => 123
      case OnNewRandomDungeon => 315
      case OnDamageReceived => 303
    }
  }

  /** OperationRequestGamePacketEventCode has the one value ON_USER_MOVE. */
  const OnUserMoveRequestCode := 21

  /** FragmentInfo, in the field order buildFragmentInfoFromBuffer reads it. */
  datatype FragmentInfo = FragmentInfo(
    sequenceNumber: int, fragmentCount: int, fragmentNumber: int, totalLength: int, fragmentOffset: int)

  /** PhotonCommand: the raw type byte, the declared length, and the body as its own cursor. */
  datatype PhotonCommand = PhotonCommand(commandType: int, commandLength: int, data: Cursor.BufferCursor)
}
