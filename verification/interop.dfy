/** How the two halves fit: the envelopes the game client builds, written
    as JSON and read back by the browser page, pass both browser guards and
    have the effect the page's handler gives them. The JSON text in between
    is abstracted away: the page is handed the decoded tree of `ToJson`. */
module Interop {
  import opened Wrappers
  import opened Json
  import opened Wire
  import opened ServerIdentifier
  import opened MessageBuilder
  import LegacyMessageTypes
  import MessageTypes
  import opened ChatClient

  /** Every envelope the game client can build is accepted by both browser
      guards, and parsing hands it on unchanged. */
  lemma EveryEnvelopePassesGuards(m: WebsocketJsonMessage)
    ensures LegacyMessageTypes.IsModServerMessage(ToJson(m))
    ensures MessageTypes.IsModServerMessage(ToJson(m))
    ensures LegacyMessageTypes.ParseModServerMessage(Some(ToJson(m))) == Success(ToJson(m))
    ensures MessageTypes.ParseModServerMessage(Some(ToJson(m))) == Success(ToJson(m))
  {
    assert ToJson(m).fields["type"] == JStr(MessageTypeName(m.msgType));
  }

  /** A chat envelope with a string uuid: shown (on top when live, at the
      bottom when history) unless its uuid was shown before or its timestamp
      lies outside the JavaScript date range, and remembered either way. */
  lemma ChatEnvelopeHandled(s: ChatState, m: WebsocketJsonMessage, history: bool, uuid: string, component: JsonValue,
                            parsesAsDate: string -> bool)
    requires m.msgType == ChatMessage
    requires m.payload == JsonPayload(ChatPayload(history, uuid, component))
    ensures var t := OnFrame(s, Some(ToJson(m)), parsesAsDate);
            && Seen(t.displayedIds, Val(JStr(uuid)))
            && (Seen(s.displayedIds, Val(JStr(uuid))) ==> t.messages == s.messages)
            && (!Seen(s.displayedIds, Val(JStr(uuid))) && -MaxTimeValue <= m.timestamp <= MaxTimeValue ==>
                  t.messages == Place(s.messages, DisplayedMessage(Val(JStr(uuid)), Val(component), Val(JNum(m.timestamp)), history)))
            && (!(-MaxTimeValue <= m.timestamp <= MaxTimeValue) ==> t.messages == s.messages)
  {
    var j := ToJson(m);
    assert j.fields["type"] == JStr("chatMessage");
    EveryEnvelopePassesGuards(m);
    var counted := CountUnread(s);
    var payload := ReadProperty(Val(j), "payload");
    assert payload == Val(ChatPayload(history, uuid, component));
    assert ReadProperty(payload, "uuid") == Val(JStr(uuid));
    assert ReadProperty(payload, "component") == Val(component);
    assert ReadProperty(payload, "history") == Val(JBool(history));
    assert ReadProperty(Val(j), "timestamp") == Val(JNum(m.timestamp));
    assert OnFrame(s, Some(j), parsesAsDate) == HandleChat(counted, j, parsesAsDate).value;
  }

  /** A live message the game client built is shown on top of the list the
      first time it arrives, with the component the game serialised. */
  lemma LiveMessageGoesOnTop(
    s: ChatState, componentJson: string, client: MinecraftClient, now: int, gameVersion: string,
    platform: Platform, codec: JsonCodec, parsesAsDate: string -> bool)
    requires CreateLiveChatMessage(componentJson, client, now, gameVersion, platform, codec).Success?
    requires !Seen(s.displayedIds, Val(JStr(LiveMessageUuid(platform, now, componentJson))))
    requires -MaxTimeValue <= now <= MaxTimeValue
    ensures var m := CreateLiveChatMessage(componentJson, client, now, gameVersion, platform, codec).value;
            var t := OnFrame(s, Some(ToJson(m)), parsesAsDate);
            && |t.messages| == |s.messages| + 1
            && t.messages[0] == DisplayedMessage(Val(JStr(LiveMessageUuid(platform, now, componentJson))),
                                                 Val(GsonObjectFromJson(codec, componentJson).value), Val(JNum(now)), false)
            && t.messages[1..] == s.messages
  {
    var m := CreateLiveChatMessage(componentJson, client, now, gameVersion, platform, codec).value;
    ChatEnvelopeHandled(s, m, false, LiveMessageUuid(platform, now, componentJson),
                        GsonObjectFromJson(codec, componentJson).value, parsesAsDate);
  }

  /** A message read back from history is appended at the bottom of the
      list the first time it arrives. */
  lemma HistoricMessageGoesToBottom(
    s: ChatState, timestamp: int, serverId: string, serverName: string, messageId: string,
    messageJson: string, minecraftVersion: string, codec: JsonCodec, parsesAsDate: string -> bool)
    requires CreateHistoricChatMessage(timestamp, serverId, serverName, messageId, messageJson, minecraftVersion, codec).Success?
    requires !Seen(s.displayedIds, Val(JStr(messageId)))
    requires -MaxTimeValue <= timestamp <= MaxTimeValue
    ensures var m := CreateHistoricChatMessage(timestamp, serverId, serverName, messageId, messageJson, minecraftVersion, codec).value;
            var t := OnFrame(s, Some(ToJson(m)), parsesAsDate);
            && |t.messages| == |s.messages| + 1
            && t.messages[..|s.messages|] == s.messages
            && t.messages[|s.messages|] == DisplayedMessage(Val(JStr(messageId)), Val(GsonObjectFromJson(codec, messageJson).value),
                                                            Val(JNum(timestamp)), true)
  {
    var m := CreateHistoricChatMessage(timestamp, serverId, serverName, messageId, messageJson, minecraftVersion, codec).value;
    ChatEnvelopeHandled(s, m, true, messageId, GsonObjectFromJson(codec, messageJson).value, parsesAsDate);
  }

  /** The same chat envelope arriving twice is shown once. */
  lemma DuplicateEnvelopeShownOnce(s: ChatState, m: WebsocketJsonMessage, history: bool, uuid: string, component: JsonValue,
                                   parsesAsDate: string -> bool)
    requires m.msgType == ChatMessage
    requires m.payload == JsonPayload(ChatPayload(history, uuid, component))
    ensures var once := OnFrame(s, Some(ToJson(m)), parsesAsDate);
            OnFrame(once, Some(ToJson(m)), parsesAsDate).messages == once.messages
  {
    ChatEnvelopeHandled(s, m, history, uuid, component, parsesAsDate);
    ChatEnvelopeHandled(OnFrame(s, Some(ToJson(m)), parsesAsDate), m, history, uuid, component, parsesAsDate);
  }

  /** The page's reaction to each connection state the game client sends:
      `join` shows the server's name in the title, `disconnect` restores the
      base title, `init` changes nothing but the unread counter. */
  lemma ConnectionStatesHandled(s: ChatState, state: ConnectionState, client: MinecraftClient, now: int,
                                gameVersion: string, platform: Platform, parsesAsDate: string -> bool)
    ensures var m := CreateConnectionStateMessage(state, client, now, gameVersion, platform);
            var t := OnFrame(s, Some(ToJson(m)), parsesAsDate);
            && (state == Join ==> t == UpdateServerName(CountUnread(s), Val(JStr(m.server.name))))
            && (state == Disconnect ==> t == UpdateServerName(CountUnread(s), Undefined) && t.title == s.baseTitle)
            && (state == Init ==> t == CountUnread(s))
  {
    var m := CreateConnectionStateMessage(state, client, now, gameVersion, platform);
    var j := ToJson(m);
    EveryEnvelopePassesGuards(m);
    assert j.fields["type"] == JStr("serverConnectionState");
    assert ReadProperty(Val(j), "payload") == Val(JStr(ConnectionStateName(state)));
    assert ReadProperty(Val(j), "server") == Val(ServerInfoJson(m.server));
    assert ReadProperty(Val(ServerInfoJson(m.server)), "name") == Val(JStr(m.server.name));
  }

  /** Joining a named server shows "<base title> - <server name>". */
  lemma JoinShowsServerName(s: ChatState, client: MinecraftClient, now: int, gameVersion: string, platform: Platform,
                            parsesAsDate: string -> bool)
    requires GetCurrentServerInfo(client, platform).name != ""
    ensures var m := CreateConnectionStateMessage(Join, client, now, gameVersion, platform);
            OnFrame(s, Some(ToJson(m)), parsesAsDate).title == s.baseTitle + " - " + GetCurrentServerInfo(client, platform).name
  {
    ConnectionStatesHandled(s, Join, client, now, gameVersion, platform, parsesAsDate);
  }
}
