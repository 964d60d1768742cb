/** The browser's newer message guard (`js/messages/message_types.mjs`): it
    also accepts history metadata and player-list envelopes. */
module MessageTypes {
  import opened Wrappers
  import opened Json
  import LegacyMessageTypes

  /** The `type` values the guard accepts. */
  const AcceptedTypes: set<string> :=
    {"chatMessage", "serverConnectionState", "historyMetaData", "serverPlayerList"}

  /** `isModServerMessage`: a minimal type guard that reads nothing but the
      `type` field. It holds exactly for objects whose `type` is one of the
      four accepted strings; null, primitives, arrays and type-less objects
      fail. */
  predicate IsModServerMessage(message: JsonValue): (accepted: bool)
    ensures accepted <==>
              message.JObj? && "type" in message.fields
              && message.fields["type"].JStr? && message.fields["type"].str in AcceptedTypes
  {
    if TypeOf(message) != "object" || message == JNull then false
    else if !HasProperty(message, "type") then false
    else
      || message.fields["type"] == JStr("chatMessage")
      || message.fields["type"] == JStr("serverConnectionState")
      || message.fields["type"] == JStr("historyMetaData")
      || message.fields["type"] == JStr("serverPlayerList")
  }

  /** The accepted set only grows: whatever the older guard accepts, this one
      accepts, and the values only this one accepts are the objects typed
      "historyMetaData" or "serverPlayerList". */
  lemma ExtendsLegacyGuard(message: JsonValue)
    ensures LegacyMessageTypes.IsModServerMessage(message) ==> IsModServerMessage(message)
    ensures IsModServerMessage(message) && !LegacyMessageTypes.IsModServerMessage(message) <==>
              message.JObj? && "type" in message.fields
              && message.fields["type"] in {JStr("historyMetaData"), JStr("serverPlayerList")}
  {
  }

  /** The guard inspects no field but `type`. */
  lemma GuardIgnoresOtherFields(fields: map<string, JsonValue>, key: string, v: JsonValue)
    requires key != "type"
    ensures IsModServerMessage(JObj(fields[key := v])) <==> IsModServerMessage(JObj(fields))
  {
  }

  /** Why parsing a frame failed: the text is not JSON (`JSON.parse` throws),
      or the decoded value fails the guard. */
  datatype ParseError = JsonSyntaxError | InvalidMessage(message: string)

  const InvalidMessageType: string := "Invalid message type"

  /** `parseModServerMessage`, given the outcome of `JSON.parse` on the raw
      frame (`None` when the text is not JSON). */
  function ParseModServerMessage(decoded: Option<JsonValue>): (r: Result<JsonValue, ParseError>)
    ensures decoded.None? ==> r == Failure(JsonSyntaxError)
    ensures decoded.Some? ==> (r == Failure(InvalidMessage(InvalidMessageType)) <==> !IsModServerMessage(decoded.value))
    ensures r.Success? <==> decoded.Some? && IsModServerMessage(decoded.value)
    ensures r.Success? ==> r.value == decoded.value
  {
    match decoded
    case None => Failure(JsonSyntaxError)
    case Some(message) =>
      if !IsModServerMessage(message) then Failure(InvalidMessage(InvalidMessageType))
      else Success(message)
  }
}
