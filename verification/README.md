# minecraft-web-chat: the message protocol, the history store and the chat page, in Dafny

This project models the core of minecraft-web-chat. The game client (Java, a Fabric mod) sends each chat line and each server join/leave as a JSON envelope over a WebSocket. A browser page shows these envelopes as a chat log. The game client also keeps chat lines in an SQLite history table and replays them as history envelopes.

The model has one Dafny module per part:

- `Wrappers` holds `Option` and `Result`.
- `Json` holds decoded JSON values and the few JavaScript operations the page relies on:
  - `typeof`, `in`, property reads that throw on `null`/`undefined`, truthiness and `String()`;
  - Gson's "parse as `JsonObject`";
  - an abstract text codec.
- `Wire` holds the envelope `WebsocketJsonMessage`, its two factories, the serialised enum names, and the JSON object Gson writes for an envelope.
- `ServerIdentifier` holds `getCurrentServerInfo`: which world or server the client is on, and its name and identifier.
- `MessageBuilder` holds the live, historic and connection-state envelope builders.
- `LegacyMessageTypes` and `MessageTypes` hold the browser's two message guards and parsers:
  - `js/message_types.mjs`, which accepts two types and is the one the chat page imports;
  - `js/messages/message_types.mjs`, which accepts four types.
- `Translations` holds the collection of translation keys from a game text tree, and the key-to-translation map with its fallback to the key.
- `ChatStore` holds the history repository on an in-memory table: the schema-version check, `saveMessage`, and `getMessages`. `getMessages` filters by server, orders newest first, applies SQLite's `LIMIT` and rebuilds history envelopes.
- `ChatClient` holds the chat page as a state record with one step function per event:
  - frames (the dedup set, live messages on top and history at the bottom, `join`/`disconnect` handling);
  - socket open, close and error, and the capped reconnect counter;
  - the unread counter and its reset when the page becomes visible;
  - title and status texts;
  - the `sendMessage` gate.
- `Interop` holds cross-language lemmas about what the page does with each envelope the game client can build.

Some behaviours of the chat page are modelled as the code has them:
- A failed send overwrites the whole `#status` text. This removes the connection and server spans, so later connection updates leave the status area alone and server changes only touch the title.
- The reconnect counter is never reset.
- A chat frame without a `uuid` adds `undefined` to the dedup set, so the next uuid-less frame is dropped.
- An object-valued uuid is never found in the set again, so it never deduplicates.
- `String.prototype.trim` strips the ECMAScript white space and line terminator characters.

## Model

| member | source | states |
|---|---|---|
| Wire.MessageTypeNamesExact | src/client/java/dev/creesch/model/WebsocketJsonMessage.java:30-35 | the two message kinds have distinct wire names, and the names are exactly "chatMessage" and "serverConnectionState" |
| Wire.ConnectionStateNamesExact | src/client/java/dev/creesch/model/WebsocketJsonMessage.java:40-47 | the three connection states have distinct wire names, and the names are exactly "init", "join" and "disconnect" |
| Wire.CreateChatMessage | src/client/java/dev/creesch/model/WebsocketJsonMessage.java:64-77 | a chat envelope has the chat type and carries timestamp, server, payload and version unchanged |
| Wire.CreateServerConnectionStateMessage | src/client/java/dev/creesch/model/WebsocketJsonMessage.java:79-92 | a connection-state envelope has the connection-state type, and its payload is the given state |
| Wire.ToJson | src/client/java/dev/creesch/model/WebsocketJsonMessage.java:14-19 | the written envelope is an object with exactly the five field names, its `type` is the kind's wire name, its payload is the JSON tree or the state's wire name, and timestamp, server (name and identifier) and game version hold the envelope's values |
| ServerIdentifier.GetCurrentServerInfo | src/client/java/dev/creesch/util/MinecraftServerIdentifier.java:41-84 | no world, singleplayer without integrated server, or multiplayer without server entry all give DISCONNECTED ("Disconnected", "disconnected"); any other answer implies the matching object exists |
| ServerIdentifier.SingleplayerIdentity | src/client/java/dev/creesch/util/MinecraftServerIdentifier.java:58-71 | on a singleplayer world the name is the save folder's file name and the id is the name-based UUID of the save path relative to the game directory |
| ServerIdentifier.MultiplayerName | src/client/java/dev/creesch/util/MinecraftServerIdentifier.java:79-80 | on a server the name is the entry's name when present, else its address |
| ServerIdentifier.MultiplayerIdDependsOnlyOnAddress | src/client/java/dev/creesch/util/MinecraftServerIdentifier.java:79-82 | two clients on entries with the same address get the same id, whatever the names or other state |
| ServerIdentifier.SingleplayerIdDependsOnlyOnRelativePath | src/client/java/dev/creesch/util/MinecraftServerIdentifier.java:65-71 | two singleplayer worlds with the same relative save path get the same id |
| MessageBuilder.ChatPayload | src/client/java/dev/creesch/model/WebsocketMessageBuilder.java:39-45 | the chat payload object has exactly the keys history, uuid and component, holding the given values |
| MessageBuilder.CreateLiveChatMessage | src/client/java/dev/creesch/model/WebsocketMessageBuilder.java:23-53 | fails with the world-null error exactly when no world is loaded; otherwise succeeds exactly when Gson reads the component text as a `JsonObject`: an object, or empty text (stored as JSON null); JSON `null`, other values and malformed text fail. On success it gives a chat envelope at the clock time, for the current server and game version, with history false, the timestamp+JSON name-based uuid and the component Gson read |
| MessageBuilder.LiveUuidDeterministic | src/client/java/dev/creesch/model/WebsocketMessageBuilder.java:32-36 | two live builds with the same timestamp and component JSON get the same uuid, whatever the server or version |
| MessageBuilder.CreateHistoricChatMessage | src/client/java/dev/creesch/model/WebsocketMessageBuilder.java:60-85 | succeeds exactly when Gson reads the stored text as a `JsonObject` (an object, or empty text giving JSON null; JSON `null` itself fails); the envelope has history true, uuid = message id, the component Gson read, and server info (serverName, serverId) as passed |
| MessageBuilder.CreateConnectionStateMessage | src/client/java/dev/creesch/model/WebsocketMessageBuilder.java:92-103 | the envelope carries the given state as payload, the clock time, the version and the current server info, which is DISCONNECTED when no world is loaded |
| LegacyMessageTypes.IsModServerMessage | src/client/resources/web/js/message_types.mjs:55-64 | the guard holds exactly for objects whose `type` is "chatMessage" or "serverConnectionState" (null, primitives, arrays and type-less objects fail) |
| LegacyMessageTypes.GuardIgnoresOtherFields | src/client/resources/web/js/message_types.mjs:55-64 | changing or adding any field other than `type` never changes the verdict |
| LegacyMessageTypes.ParseModServerMessage | src/client/resources/web/js/message_types.mjs:71-79 | malformed JSON fails; "Invalid message type" is raised exactly when the guard fails; on success the decoded value is returned unchanged |
| MessageTypes.IsModServerMessage | src/client/resources/web/js/messages/message_types.mjs:87-101 | the guard holds exactly for objects whose `type` is one of the four accepted names |
| MessageTypes.ExtendsLegacyGuard | src/client/resources/web/js/messages/message_types.mjs:95-100 | everything the older guard accepts is accepted here; the values only this guard accepts are exactly the objects typed historyMetaData or serverPlayerList |
| MessageTypes.GuardIgnoresOtherFields | src/client/resources/web/js/messages/message_types.mjs:87-101 | changing or adding any field other than `type` never changes the verdict |
| MessageTypes.ParseModServerMessage | src/client/resources/web/js/messages/message_types.mjs:108-116 | malformed JSON fails; "Invalid message type" is raised exactly when the guard fails; on success the decoded value is returned unchanged |
| Translations.CollectTranslationKeys | src/client/java/dev/creesch/util/ClientTranslationUtils.java:27-52 | the walk adds to the given keys exactly the keys of the tree under the structural definition `KeysOf` (translatable keys, string arguments, nested texts, siblings), so duplicates collapse |
| Translations.CollectArgs | src/client/java/dev/creesch/util/ClientTranslationUtils.java:39-45 | the argument loop adds exactly the keys of nested texts and the plain string arguments; other arguments add nothing |
| Translations.CollectSiblings | src/client/java/dev/creesch/util/ClientTranslationUtils.java:48-51 | the sibling loop adds exactly the keys of every sibling |
| Translations.PopulateTranslations | src/client/java/dev/creesch/util/ClientTranslationUtils.java:54-59 | the map's domain is the collected keys; each value is the language's translation, or the key itself when there is none |
| Translations.ExtractTranslations | src/client/java/dev/creesch/util/ClientTranslationUtils.java:17-25 | the map's domain is exactly the keys of the tree, with translation-or-key values |
| Translations.KeysExactlyWhenTranslatable | src/client/java/dev/creesch/util/ClientTranslationUtils.java:27-52 | a tree contributes keys exactly when it has a translatable node among itself and its siblings |
| Translations.EmptyMapWithoutTranslatable | src/client/java/dev/creesch/util/ClientTranslationUtils.java:17-25 | the translation map is empty exactly when the tree has no translatable node |
| Translations.TranslatableNodeContributes | src/client/java/dev/creesch/util/ClientTranslationUtils.java:31-51 | a translatable node contributes its key, each string argument, the keys of each text argument and of each sibling |
| Translations.ArgKeysCover | src/client/java/dev/creesch/util/ClientTranslationUtils.java:39-45 | every string argument and every text argument's keys are among the argument keys, and an argument of any other kind adds nothing |
| ChatStore.CheckSchemaVersion | src/client/java/dev/creesch/storage/ChatMessageRepository.java:82-113 | an empty version table gets version 1 inserted and passes; a first version above 1 fails as newer, below 1 as older; version 1 passes with the table unchanged |
| ChatStore.SchemaCheckIdempotent | src/client/java/dev/creesch/storage/ChatMessageRepository.java:86-111 | once the check has passed, running it again passes and changes nothing |
| ChatStore.SaveMessage | src/client/java/dev/creesch/storage/ChatMessageRepository.java:117-150 | succeeds exactly when the payload is an object with a string uuid and a component; a non-object payload fails with the not-an-object error; on success it appends exactly one row holding timestamp, server id and name, uuid, component JSON and version, and the existing rows stay as they were |
| ChatStore.RowsOfServer | src/client/java/dev/creesch/storage/ChatMessageRepository.java:165-166 | the filter keeps every row of the server, as often as it occurs, and no other row |
| ChatStore.SortByTimestampDesc | src/client/java/dev/creesch/storage/ChatMessageRepository.java:167-168 | the result is ordered newest first and is a permutation of the input |
| ChatStore.Limit | src/client/java/dev/creesch/storage/ChatMessageRepository.java:169-173 | a negative limit keeps every row; otherwise the first `limit` rows are kept |
| ChatStore.QueryRows | src/client/java/dev/creesch/storage/ChatMessageRepository.java:152-173 | the query returns only rows of the server, newest first, drawn from the table; it returns min(limit, rows of that server) of them, or all of them for a negative limit |
| ChatStore.QueryReturnsNewest | src/client/java/dev/creesch/storage/ChatMessageRepository.java:167-170 | a row of the server that the limit leaves out is no newer than any row returned |
| ChatStore.BuildHistory | src/client/java/dev/creesch/storage/ChatMessageRepository.java:175-193 | a database error after k rows ends the list at k rows and is swallowed; the result succeeds exactly when every row read holds a JSON-object component; element i is the historic envelope of row i |
| ChatStore.GetMessages | src/client/java/dev/creesch/storage/ChatMessageRepository.java:152-194 | the i-th envelope is the historic envelope rebuilt from the i-th row of the query (server filter, newest first, `LIMIT`); with no database error every queried row is rebuilt, after an error only the rows read before it; it fails exactly when a read row's component is not a JSON object; so at most `limit` envelopes, each a history envelope of the requested server, timestamps non-increasing |
| ChatStore.SaveThenLoad | src/client/java/dev/creesch/storage/ChatMessageRepository.java:139-185 | a message with a JSON-object component, saved into an empty store, reads back as the one history envelope with the same uuid, timestamp, server, version and component, and history true |
| ChatStore.SavedRowIsQueried | src/client/java/dev/creesch/storage/ChatMessageRepository.java:139-173 | with no limit, a saved row is returned by the query for its server, whatever else the table holds |
| ChatStore.NewestSavedRowComesFirst | src/client/java/dev/creesch/storage/ChatMessageRepository.java:139-173 | a saved message newer than every stored message of its server is the first one returned for any non-zero limit |
| ChatStore.NewestAppendedComesFirst | src/client/java/dev/creesch/storage/ChatMessageRepository.java:165-170 | a row appended after older rows of its server is the first row of the query |
| ChatClient.Remember | src/client/resources/web/js/chat.mjs:173-176 | adding a uuid only grows the set; afterwards the uuid is found exactly when it is a primitive or undefined; lookups of other values are unaffected |
| ChatClient.TitleFor | src/client/resources/web/js/chat.mjs:126 | the title differs from the base title exactly when the addition is truthy; it always starts with the base title and then continues with " - " and the name |
| ChatClient.ServerLabel | src/client/resources/web/js/chat.mjs:132 | the label is "No server" exactly when the addition is falsy, otherwise " to " followed by the name |
| ChatClient.UpdateServerName | src/client/resources/web/js/chat.mjs:125-133 | sets the title, and the server label only while the status spans exist; nothing else changes |
| ChatClient.StatusDisplayDistinguishes | src/client/resources/web/js/chat.mjs:104-117 | only "connected" gets the connected class, and the three statuses show three different texts |
| ChatClient.UpdateConnectionStatus | src/client/resources/web/js/chat.mjs:93-119 | with the spans present it sets the class ("status-connected" for connected, "status-disconnected" for disconnected and error) and the status text, and keeps the label; once they are gone it changes nothing |
| ChatClient.Init | src/client/resources/web/js/chat.mjs:9-22 | the loaded page is valid, with base title, a connecting socket, zero counters and nothing displayed |
| ChatClient.Place | src/client/resources/web/js/chat.mjs:80-85 | history messages are appended at the end, live ones inserted at the front, and nothing else in the list changes |
| ChatClient.HandleChat | src/client/resources/web/js/chat.mjs:171-178 | throws exactly when the payload is missing or null; a seen uuid leaves the state unchanged; a new one is remembered, and the message with the payload's component and history flag and the envelope's timestamp is placed exactly when that timestamp is a valid time for `new Date` (the display callback's `toISOString` at chat.mjs line 45 throws otherwise, before placement) |
| ChatClient.HandleConnectionState | src/client/resources/web/js/chat.mjs:179-200 | `join` sets the server name from `server.name` (and throws when `server` is missing or null); `disconnect` clears it; any other payload changes nothing |
| ChatClient.OnFrame | src/client/resources/web/js/chat.mjs:159-204 | the unread counter goes up by one exactly when the page is hidden, before parsing; the socket, reconnect state, input and outbox are untouched; the dedup set only grows; a frame that does not parse or that the guard rejects changes nothing else; an accepted `chatMessage` frame has the chat handler's effect and leaves title and status alone, any other accepted frame has the connection-state handler's effect and leaves the list and the dedup set alone; when the handler throws, only the counter changes |
| ChatClient.CountUnread | src/client/resources/web/js/chat.mjs:160-163 | a frame arriving while the page is hidden adds one unread frame; nothing else changes |
| ChatClient.OnFramePreservesValid | src/client/resources/web/js/chat.mjs:159-204 | every frame keeps the page valid: no primitive uuid is displayed twice, and every displayed one is remembered |
| ChatClient.DisplayNewKeepsValid | src/client/resources/web/js/chat.mjs:173-177 | displaying a message whose uuid is new keeps the state valid |
| ChatClient.SeenUuidNotDisplayedAgain | src/client/resources/web/js/chat.mjs:173-175 | a frame whose uuid was already seen leaves the state unchanged |
| ChatClient.OnOpen | src/client/resources/web/js/chat.mjs:139-142 | the socket is open and the status shows connected; nothing else changes |
| ChatClient.OnError | src/client/resources/web/js/chat.mjs:154-157 | only the status changes, to the error text |
| ChatClient.OnClose | src/client/resources/web/js/chat.mjs:144-152 | the status shows disconnected; below 300 attempts the counter goes up by one and a reconnect is scheduled; at 300 the counter and any pending reconnect stay as they were |
| ChatClient.ReconnectTimer | src/client/resources/web/js/chat.mjs:150 | a scheduled reconnect opens a new connecting socket; with none scheduled nothing happens |
| ChatClient.OnVisibilityChange | src/client/resources/web/js/chat.mjs:24-29 | becoming visible resets the unread counter to 0; becoming hidden keeps it |
| ChatClient.TrimStart | src/client/resources/web/js/chat.mjs:216 | the result is the suffix after the leading white space |
| ChatClient.TrimEnd | src/client/resources/web/js/chat.mjs:216 | the result is the prefix before the trailing white space |
| ChatClient.Trim | src/client/resources/web/js/chat.mjs:216-219 | the trimmed text is empty exactly when the input is blank; it is what is left after the leading white space, cut only at trailing white space, and it neither starts nor ends with white space |
| ChatClient.SendMessage | src/client/resources/web/js/chat.mjs:207-231 | with an open socket and non-blank input, the untrimmed input is sent and the box cleared; blank input changes nothing; otherwise the status is overwritten with the not-sent notice; a frame is sent exactly in the first case |
| ChatClient.ReplacedStatusIsFinal | src/client/resources/web/js/chat.mjs:223-229 | after the status text has been overwritten, open, close, error and server-name updates leave the status area as it is |
| ChatClient.StepPreservesValid | src/client/resources/web/js/chat.mjs:136-231 | every event keeps the page valid, only grows the dedup set, and never lowers the reconnect counter |
| ChatClient.RunPreservesValid | src/client/resources/web/js/chat.mjs:136-231 | over any run of events the page stays valid, the reconnect counter stays at most 300, and the dedup set only grows |
| ChatClient.NoReconnectAfterCap | src/client/resources/web/js/chat.mjs:148-151 | at 300 attempts a close schedules no reconnect, and the timer then does nothing |
| ChatClient.JoinThenDisconnectRestoresTitle | src/client/resources/web/js/chat.mjs:185-197 | a join followed by a disconnect restores the base title |
| Interop.EveryEnvelopePassesGuards | src/client/resources/web/js/message_types.mjs:55-79 | every envelope the Java side can build passes both browser guards, and parsing returns it unchanged |
| Interop.ChatEnvelopeHandled | src/client/resources/web/js/chat.mjs:171-177 | a chat envelope is remembered; when its uuid is new and its timestamp lies within the JavaScript date range it is displayed (placed by its history flag, with its component and timestamp); a seen uuid or an out-of-range timestamp leaves the list alone |
| Interop.LiveMessageGoesOnTop | src/client/resources/web/js/chat.mjs:80-85 | a new live envelope built by the game client at a clock time within the date range appears first, with its component and history false, and the rest of the list stays the same |
| Interop.HistoricMessageGoesToBottom | src/client/resources/web/js/chat.mjs:80-85 | a new history envelope whose timestamp is within the date range appears last, after the unchanged existing list |
| Interop.DuplicateEnvelopeShownOnce | src/client/resources/web/js/chat.mjs:173-176 | the same chat envelope delivered twice is displayed once |
| Interop.ConnectionStatesHandled | src/client/resources/web/js/chat.mjs:179-198 | each connection-state envelope has its effect: join shows the server name, disconnect restores the base title, init changes nothing but the unread counter |
| Interop.JoinShowsServerName | src/client/resources/web/js/chat.mjs:185-190 | joining a server with a non-empty name sets the title to the base title, " - " and the server name |

## Left out

- The component validator and formatter of `message_parsing.mjs` are not part of this model. A displayed message keeps its component as an opaque value. The "Invalid message" and "Error parsing message" fallbacks change only what the message shows, not whether or where it appears. Whether it appears depends on its timestamp, which is modelled (`Json.ValidTime`).
- JSON text is not modelled. `JSON.parse`, Gson's `fromJson` and `toJson`, and Minecraft's `Text.Serialization` are an abstract codec: `encode` and `decode` functions, with a round-trip assumption where a lemma needs one.
- Wire.ToJson: does not drop null-valued fields as Gson's default writer does. The only field that can be JSON null is a component Gson read from empty text.
- `Date.parse` is a parameter of the frame handlers (`parsesAsDate`): which texts a browser reads as dates is implementation-defined.
- GsonObjectFromJson: treats only white-space text as empty. Gson's lenient reader would also treat comment-only text so.
- Numbers are unbounded integers. JavaScript's doubles and Java's 64-bit `long` overflow do not arise for millisecond timestamps.
- `UUID.nameUUIDFromBytes`, `Path.relativize` and `Path.getFileName` are opaque deterministic functions (`Platform`). `Language.get` is a finite map.
- Fetching the game's clock, version and server state are parameters of the builders.
- SQLite and JDBC are replaced by an in-memory table:
  - Connection failures and the table DDL are not modelled.
  - `saveMessage`'s `SQLException` is not modelled.
  - In `getMessages`, an `SQLException` is reduced to "failed after k rows" (`failAfter`).
- ChatStore.QueryRows: rows with equal timestamps come back in table order. SQLite leaves that order unspecified, so the contract only promises non-increasing timestamps.
- ChatStore.CheckSchemaVersion: the exceptions are reduced to their kind and the stored version; log lines and message texts are not modelled.
- ChatStore.SaveMessage: treats any `uuid` that is not a JSON string as a failure. Gson's `getAsString` would also turn a number or boolean into text. Only string uuids are ever built.
- The DOM is not modelled:
  - The elements the page looks up (`#messages`, `#status` and `#messageInput`) are assumed present.
  - `requestAnimationFrame` callbacks run in arrival order, so they are applied at once.
  - The locale formatting of timestamps, the favicon counter drawing and console logging are not modelled.
- The WebSocket is reduced to its ready state. The open and close events and the reconnect timer change it; the error event leaves it as it is:
  - The `CLOSING` state is not modelled.
  - Events from a socket that has already been replaced are not modelled.
  - The two-second reconnect delay is an explicit timer event.
- `visibilityState` is visible or hidden. Other states are treated as hidden, as the page's `!== 'visible'` test does.
- The notification manager, `util.mjs`/`util.js`, the Fabric event wiring and the build configuration are not part of this model.
- The Java type mismatch between `createChatMessage`'s `ChatMessagePayload` parameter and the `JsonObject` the builders pass is not taken sides on. The payload is an abstract JSON tree.
