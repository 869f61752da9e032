/** OperationRequestGamePacketFactory
    (src/domain/factories/OperationRequestGamePacketFactory.ts): one builder,
    registered under operation code 21, for the player's own movement. */
module OperationRequestGamePacketFactory {
  import opened Results
  import opened Protocol16
  import opened JsValues
  import opened GamePacketModels

  datatype RequestBuilder = BuildOnMoveUser

  /** operationRequestGamePacketBuildersByEventCode. */
  const BuildersByEventCode: map<int, RequestBuilder> := map[OnUserMoveRequestCode := BuildOnMoveUser]

  /** findBuilderFunctionByEventCode with the value found under parameter 253. */
  function FindBuilderFunctionByEventCode(eventCode: Option<Value>): (r: Result<Option<RequestBuilder>>)
    ensures r.Err? ==> eventCode.Some? && (eventCode.value.Float? || eventCode.value.Double?)
  {
    if eventCode.None? then Ok(None)
    else
      match eventCode.value
      case Byte(n) => Ok(Lookup(n))
      case Short(n) => Ok(Lookup(n))
      case Integer(n) => Ok(Lookup(n))
      case Float(_) => Err(CoercionNotModelled)
      case Double(_) => Err(CoercionNotModelled)
      case _ => Ok(None)
  }

  function Lookup(code: int): (b: Option<RequestBuilder>)
    ensures b.Some? <==> code in BuildersByEventCode
  {
    if code in BuildersByEventCode then Some(BuildersByEventCode[code]) else None
  }

  /** Only the number 21 (whatever width it was decoded with) finds a builder. */
  lemma OnlyUserMoveHasABuilder(eventCode: Option<Value>)
    requires FindBuilderFunctionByEventCode(eventCode).Ok?
    ensures FindBuilderFunctionByEventCode(eventCode).value.Some? <==>
              eventCode.Some? && eventCode.value in {Byte(21), Short(21), Integer(21)}
  {
  }

  /** buildOperationRequestOnMoveUser: the first two elements of parameter 1 (logging is
      left out). */
  function BuildOperationRequestOnMoveUser(parameters: map<int, Value>): (r: Result<GamePacket>)
    ensures r.Ok? <==> At(Get(parameters, 1), 0).Ok?
    ensures r.Ok? ==> r.value.OperationRequestSelfUserMove? &&
                      r.value.GamePacketTypeOf() == GamePacketType.SelfUserMove
  {
    var positionX :- At(Get(parameters, 1), 0);
    // `at` fails on the whole value or not at all, so the second read cannot throw.
    var positionY := At(Get(parameters, 1), 1).value;
    Ok(OperationRequestSelfUserMove(positionX, positionY))
  }

  /** The position is parameter 1's first two elements, in order; a missing parameter 1
      gives undefined coordinates. */
  lemma SelfMovePosition(parameters: map<int, Value>, es: seq<Value>)
    ensures 1 in parameters && parameters[1] == Array(es) && |es| >= 2 ==>
              BuildOperationRequestOnMoveUser(parameters) == Ok(OperationRequestSelfUserMove(Some(es[0]), Some(es[1])))
    ensures 1 !in parameters ==> BuildOperationRequestOnMoveUser(parameters) == Ok(OperationRequestSelfUserMove(None, None))
  {
  }

  /** The registered builder applied; it builds the player's own movement. */
  function Build(builder: RequestBuilder, parameters: map<int, Value>): (r: Result<GamePacket>)
    ensures r.Ok? <==> At(Get(parameters, 1), 0).Ok?
    ensures r.Ok? ==> r.value.GamePacketTypeOf() == GamePacketType.SelfUserMove
  {
    match builder
    case BuildOnMoveUser => BuildOperationRequestOnMoveUser(parameters)
  }
}
