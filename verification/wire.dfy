/** The WebSocket envelope the game client sends to browsers
    (`WebsocketJsonMessage`), its two factories, and its JSON form as Gson
    writes it. */
module Wire {
  import opened Json

  /** The envelope kinds the Java side can build. */
  datatype MessageType = ChatMessage | ServerConnectionState

  /** Serialised name of a message kind (its `@SerializedName`). */
  function MessageTypeName(t: MessageType): (name: string) {
    match t
    case ChatMessage => "chatMessage"
    case ServerConnectionState => "serverConnectionState"
  }

  /** Connection events, named as the Fabric connection events are. */
  datatype ConnectionState = Init | Join | Disconnect

  /** Serialised name of a connection state (its `@SerializedName`). */
  function ConnectionStateName(s: ConnectionState): (name: string) {
    match s
    case Init => "init"
    case Join => "join"
    case Disconnect => "disconnect"
  }

  /** Every message kind has a distinct wire name, and the wire names are
      exactly "chatMessage" and "serverConnectionState". */
  lemma MessageTypeNamesExact()
    ensures forall a, b :: MessageTypeName(a) == MessageTypeName(b) ==> a == b
    ensures (set t: MessageType | true :: MessageTypeName(t)) == {"chatMessage", "serverConnectionState"}
  {
    var names := set t: MessageType | true :: MessageTypeName(t);
    assert MessageTypeName(ChatMessage) in names;
    assert MessageTypeName(ServerConnectionState) in names;
  }

  /** Every connection state has a distinct wire name, and the wire names are
      exactly "init", "join" and "disconnect". */
  lemma ConnectionStateNamesExact()
    ensures forall a, b :: ConnectionStateName(a) == ConnectionStateName(b) ==> a == b
    ensures (set s: ConnectionState | true :: ConnectionStateName(s)) == {"init", "join", "disconnect"}
  {
    var names := set s: ConnectionState | true :: ConnectionStateName(s);
    assert ConnectionStateName(Init) in names;
    assert ConnectionStateName(Join) in names;
    assert ConnectionStateName(Disconnect) in names;
  }

  /** The server a message belongs to: a display name and a stable identifier. */
  datatype ChatServerInfo = ChatServerInfo(name: string, identifier: string)

  /** The envelope's `Object payload`: either a JSON tree (what the chat
      builders pass) or a connection state. */
  datatype Payload = JsonPayload(json: JsonValue) | StatePayload(state: ConnectionState)

  /** The envelope. The timestamp is milliseconds since the epoch. */
  datatype WebsocketJsonMessage = WebsocketJsonMessage(
    timestamp: int,
    server: ChatServerInfo,
    msgType: MessageType,
    minecraftVersion: string,
    payload: Payload)

  /** Factory for chat envelopes. */
  function CreateChatMessage(timestamp: int, server: ChatServerInfo, message: JsonValue, minecraftVersion: string)
    : (m: WebsocketJsonMessage)
    ensures m.msgType == ChatMessage
    ensures m.timestamp == timestamp && m.server == server && m.minecraftVersion == minecraftVersion
    ensures m.payload == JsonPayload(message)
  {
    WebsocketJsonMessage(timestamp, server, ChatMessage, minecraftVersion, JsonPayload(message))
  }

  /** Factory for connection-state envelopes. */
  function CreateServerConnectionStateMessage(timestamp: int, server: ChatServerInfo, state: ConnectionState, minecraftVersion: string)
    : (m: WebsocketJsonMessage)
    ensures m.msgType == ServerConnectionState
    ensures m.timestamp == timestamp && m.server == server && m.minecraftVersion == minecraftVersion
    ensures m.payload == StatePayload(state)
  {
    WebsocketJsonMessage(timestamp, server, ServerConnectionState, minecraftVersion, StatePayload(state))
  }

  function ServerInfoJson(server: ChatServerInfo): (j: JsonValue) {
    JObj(map["name" := JStr(server.name), "identifier" := JStr(server.identifier)])
  }

  function PayloadJson(p: Payload): (j: JsonValue) {
    match p
    case JsonPayload(json) => json
    case StatePayload(state) => JStr(ConnectionStateName(state))
  }

  /** The JSON object Gson writes for an envelope: one field per Java field,
      enums by their serialised names, a JSON-tree payload verbatim. */
  function ToJson(m: WebsocketJsonMessage): (j: JsonValue)
    ensures j.JObj?
    ensures j.fields.Keys == {"timestamp", "server", "type", "minecraftVersion", "payload"}
    ensures j.fields["type"] == JStr(MessageTypeName(m.msgType))
    ensures j.fields["payload"] == PayloadJson(m.payload)
    ensures j.fields["timestamp"] == JNum(m.timestamp)
    ensures j.fields["server"] == ServerInfoJson(m.server)
    ensures j.fields["minecraftVersion"] == JStr(m.minecraftVersion)
  {
    JObj(map[
      "timestamp" := JNum(m.timestamp),
      "server" := ServerInfoJson(m.server),
      "type" := JStr(MessageTypeName(m.msgType)),
      "minecraftVersion" := JStr(m.minecraftVersion),
      "payload" := PayloadJson(m.payload)])
  }
}
