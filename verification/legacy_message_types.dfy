/** The browser's first message guard (`js/message_types.mjs`), the one the
    chat page imports: it accepts the two envelope kinds the game client
    originally sent. */
module LegacyMessageTypes {
  import opened Wrappers
  import opened Json

  /** The `type` values the guard accepts. */
  const AcceptedTypes: set<string> := {"chatMessage", "serverConnectionState"}

  /** `isModServerMessage`: a minimal type guard that reads nothing but the
      `type` field. It holds exactly for objects whose `type` is one of the
      two accepted strings; null, primitives, arrays and type-less objects
      fail. */
  predicate IsModServerMessage(message: JsonValue): (accepted: bool)
    ensures accepted <==>
              message.JObj? && "type" in message.fields
              && message.fields["type"].JStr? && message.fields["type"].str in AcceptedTypes
  {
    if TypeOf(message) != "object" || message == JNull then false
    else if !HasProperty(message, "type") then false
    else message.fields["type"] == JStr("chatMessage") || message.fields["type"] == JStr("serverConnectionState")
  }

  /** The guard inspects no field but `type`: replacing or adding any other
      field of an object keeps the verdict. */
  lemma GuardIgnoresOtherFields(fields: map<string, JsonValue>, key: string, v: JsonValue)
    requires key != "type"
    ensures IsModServerMessage(JObj(fields[key := v])) <==> IsModServerMessage(JObj(fields))
  {
  }

  /** Why parsing a frame failed: the text is not JSON (`JSON.parse` throws),
      or the decoded value fails the guard. */
  datatype ParseError = JsonSyntaxError | InvalidMessage(message: string)

  const InvalidMessageType: string := "Invalid message type"

  /** `parseModServerMessage`, given the outcome of `JSON.parse` on the raw
      frame (`None` when the text is not JSON). */
  function ParseModServerMessage(decoded: Option<JsonValue>): (r: Result<JsonValue, ParseError>)
    ensures decoded.None? ==> r == Failure(JsonSyntaxError)
    ensures decoded.Some? ==> (r == Failure(InvalidMessage(InvalidMessageType)) <==> !IsModServerMessage(decoded.value))
    ensures r.Success? <==> decoded.Some? && IsModServerMessage(decoded.value)
    ensures r.Success? ==> r.value == decoded.value
  {
    match decoded
    case None => Failure(JsonSyntaxError)
    case Some(message) =>
      if !IsModServerMessage(message) then Failure(InvalidMessage(InvalidMessageType))
      else Success(message)
  }
}
