/** Construction of the envelopes the game client broadcasts
    (`WebsocketMessageBuilder`): live chat, chat read back from history,
    and connection-state changes. */
module MessageBuilder {
  import opened Wrappers
  import opened Json
  import opened Wire
  import opened ServerIdentifier

  /** Why a live chat envelope could not be built: no world is loaded
      (`MessageBuildException`), or the serialised component is not a JSON
      object (Gson's `JsonSyntaxException`). */
  datatype BuildError = ClientWorldNull | ComponentNotObject

  /** The chat payload object: the history flag, the message uuid, and the
      component tree. */
  function ChatPayload(history: bool, uuid: string, component: JsonValue): (p: JsonValue)
    ensures p.JObj? && p.fields.Keys == {"history", "uuid", "component"}
    ensures p.fields["history"] == JBool(history) && p.fields["uuid"] == JStr(uuid) && p.fields["component"] == component
  {
    JObj(map["history" := JBool(history), "uuid" := JStr(uuid), "component" := component])
  }

  /** The uuid of a live message: the name-based UUID of the decimal timestamp
      followed by the component's JSON text. */
  function LiveMessageUuid(platform: Platform, timestamp: int, componentJson: string): (uuid: string) {
    platform.nameUuidFromBytes(DecimalString(timestamp) + componentJson)
  }

  /** A live chat envelope. `componentJson` is the game's own JSON
      serialisation of the message text, `now` the UTC clock reading in
      milliseconds, and `gameVersion` the running game's version name. */
  function CreateLiveChatMessage(
    componentJson: string, client: MinecraftClient, now: int, gameVersion: string,
    platform: Platform, codec: JsonCodec): (r: Result<WebsocketJsonMessage, BuildError>)
    ensures !client.worldLoaded <==> r == Failure(ClientWorldNull)
    ensures r.Success? <==> client.worldLoaded && GsonObjectFromJson(codec, componentJson).Success?
    ensures r.Success? ==>
              && r.value.msgType == ChatMessage
              && r.value.timestamp == now
              && r.value.server == GetCurrentServerInfo(client, platform)
              && r.value.minecraftVersion == gameVersion
              && r.value.payload == JsonPayload(ChatPayload(false, LiveMessageUuid(platform, now, componentJson),
                                                            GsonObjectFromJson(codec, componentJson).value))
  {
    if !client.worldLoaded then Failure(ClientWorldNull)
    else
      var serverInfo := GetCurrentServerInfo(client, platform);
      var messageUuid := LiveMessageUuid(platform, now, componentJson);
      match GsonObjectFromJson(codec, componentJson)
      case Failure(_) => Failure(ComponentNotObject)
      case Success(component) =>
        Success(CreateChatMessage(now, serverInfo, ChatPayload(false, messageUuid, component), gameVersion))
  }

  /** The uuid of a live message depends only on its timestamp and component
      JSON: two builds with the same pair agree on it, whatever the server
      state or game version. */
  lemma LiveUuidDeterministic(
    componentJson: string, now: int, a: MinecraftClient, b: MinecraftClient,
    versionA: string, versionB: string, platform: Platform, codec: JsonCodec)
    requires CreateLiveChatMessage(componentJson, a, now, versionA, platform, codec).Success?
    requires CreateLiveChatMessage(componentJson, b, now, versionB, platform, codec).Success?
    ensures CreateLiveChatMessage(componentJson, a, now, versionA, platform, codec).value.payload.json.fields["uuid"]
            == CreateLiveChatMessage(componentJson, b, now, versionB, platform, codec).value.payload.json.fields["uuid"]
  {
  }

  /** Why a history envelope could not be built: the stored JSON is not an
      object (Gson's `JsonSyntaxException`). */
  datatype HistoryError = StoredComponentMalformed

  /** A chat envelope rebuilt from a stored history row. */
  function CreateHistoricChatMessage(
    timestamp: int, serverId: string, serverName: string, messageId: string,
    messageJson: string, minecraftVersion: string, codec: JsonCodec): (r: Result<WebsocketJsonMessage, HistoryError>)
    ensures r.Success? <==> GsonObjectFromJson(codec, messageJson).Success?
    ensures r.Success? ==>
              && r.value.msgType == ChatMessage
              && r.value.timestamp == timestamp
              && r.value.server == ChatServerInfo(serverName, serverId)
              && r.value.minecraftVersion == minecraftVersion
              && r.value.payload == JsonPayload(ChatPayload(true, messageId, GsonObjectFromJson(codec, messageJson).value))
  {
    match GsonObjectFromJson(codec, messageJson)
    case Failure(_) => Failure(StoredComponentMalformed)
    case Success(component) =>
      var serverInfo := ChatServerInfo(serverName, serverId);
      Success(CreateChatMessage(timestamp, serverInfo, ChatPayload(true, messageId, component), minecraftVersion))
  }

  /** A connection-state envelope for the client's current server. */
  function CreateConnectionStateMessage(
    state: ConnectionState, client: MinecraftClient, now: int, gameVersion: string, platform: Platform)
    : (m: WebsocketJsonMessage)
    ensures m.msgType == ServerConnectionState && m.payload == StatePayload(state)
    ensures m.timestamp == now && m.minecraftVersion == gameVersion
    ensures m.server == GetCurrentServerInfo(client, platform)
    ensures !client.worldLoaded ==> m.server == Disconnected
  {
    CreateServerConnectionStateMessage(now, GetCurrentServerInfo(client, platform), state, gameVersion)
  }
}
