/** The browser chat page (`chat.mjs`) as a state record and one step
    function per event: incoming frames, socket open/close/error, the
    reconnect timer, visibility changes, typing and pressing Enter. The DOM
    is reduced to the page title, the status area and the list of displayed
    messages; the socket to its ready state and the frames sent. */
module ChatClient {
  import opened Wrappers
  import opened Json
  import opened LegacyMessageTypes

  /** Automatic reconnects stop after this many attempts. */
  const MaxReconnectAttempts: nat := 300

  /** The socket the page holds: none yet (`ws === null`), or one in a
      `readyState`. */
  datatype SocketState = NoSocket | Connecting | Open | Closed

  /** The `#status` element. Initially it holds the `.connection-status`
      and `.server-name` spans; a failed send overwrites its text, which
      removes both spans for good. */
  datatype StatusArea =
    | StatusSpans(containerClass: string, connectionText: string, serverLabel: string)
    | StatusReplaced(containerClass: string, text: string)

  /** One displayed message. `uuid` is the payload uuid of the frame it came
      from (the page does not show it; it records which frame produced the
      element); `history` is the truthiness of the payload's history flag. */
  datatype DisplayedMessage = DisplayedMessage(uuid: JsRef, component: JsRef, timestamp: JsRef, history: bool)

  datatype ChatState = ChatState(
    baseTitle: string,
    title: string,
    status: StatusArea,
    socket: SocketState,
    reconnectAttempts: nat,
    reconnectPending: bool,
    visible: bool,
    unread: nat,
    displayedIds: set<JsRef>,
    messages: seq<DisplayedMessage>,
    input: string,
    outbox: seq<string>)

  // The dedup set.

  /** A value a JavaScript `Set` finds again by value: `undefined` or a
      primitive. A decoded object or array is a fresh reference, which no
      set holds yet. */
  predicate IsKey(r: JsRef) {
    r.Undefined? || !(r.v.JArr? || r.v.JObj?)
  }

  /** `displayedMessageIds.has(uuid)`. */
  predicate Seen(ids: set<JsRef>, uuid: JsRef): (seen: bool)
    ensures seen ==> IsKey(uuid)
  {
    IsKey(uuid) && uuid in ids
  }

  /** `displayedMessageIds.add(uuid)`, keeping only what later lookups can
      find. */
  function Remember(ids: set<JsRef>, uuid: JsRef): (r: set<JsRef>)
    ensures ids <= r
    ensures Seen(r, uuid) <==> IsKey(uuid)
    ensures forall other :: other != uuid ==> (Seen(r, other) <==> Seen(ids, other))
  {
    if IsKey(uuid) then ids + {uuid} else ids
  }

  // The page title and status texts.

  /** `updateServerName`'s title: the base title, followed by " - " and the
      server name when the name is truthy. */
  function TitleFor(baseTitle: string, addition: JsRef): (t: string)
    ensures Truthy(addition) <==> t != baseTitle
    ensures |t| >= |baseTitle| && t[..|baseTitle|] == baseTitle
    ensures Truthy(addition) ==> t[|baseTitle|..] == " - " + ToJsString(addition.v)
  {
    if Truthy(addition) then baseTitle + " - " + ToJsString(addition.v) else baseTitle
  }

  /** `updateServerName`'s label: " to " and the name when the name is
      truthy, otherwise "No server". */
  function ServerLabel(addition: JsRef): (shown: string)
    ensures Truthy(addition) <==> shown != "No server"
    ensures Truthy(addition) ==> |shown| >= 4 && shown[..4] == " to " && shown[4..] == ToJsString(addition.v)
  {
    if Truthy(addition) then
      var shown := " to " + ToJsString(addition.v);
      assert shown[0] == ' ';
      shown
    else "No server"
  }

  /** A title is well formed when it is the base title, or the base title
      with a server name after " - ". */
  predicate TitleWellFormed(baseTitle: string, title: string) {
    title == baseTitle || (|title| >= |baseTitle| + 3 && title[..|baseTitle| + 3] == baseTitle + " - ")
  }

  /** `updateServerName(addition)`: always sets the title; sets the label only
      while the status spans exist. */
  function UpdateServerName(s: ChatState, addition: JsRef): (t: ChatState)
    ensures t.title == TitleFor(s.baseTitle, addition)
    ensures TitleWellFormed(t.baseTitle, t.title)
    ensures s.status.StatusSpans? ==> t.status == s.status.(serverLabel := ServerLabel(addition))
    ensures s.status.StatusReplaced? ==> t.status == s.status
    ensures t.(title := s.title, status := s.status) == s
  {
    var title := TitleFor(s.baseTitle, addition);
    assert title[..|s.baseTitle|] == s.baseTitle;
    assert Truthy(addition) ==> title[..|s.baseTitle| + 3] == s.baseTitle + " - ";
    var status := if s.status.StatusSpans? then s.status.(serverLabel := ServerLabel(addition)) else s.status;
    s.(title := title, status := status)
  }

  /** The argument of `updateConnectionStatus`. */
  datatype ConnectionStatus = StatusConnected | StatusDisconnected | StatusError

  function StatusClass(c: ConnectionStatus): (cls: string) {
    if c == StatusConnected then "status-connected" else "status-disconnected"
  }

  function StatusText(c: ConnectionStatus): (text: string) {
    match c
    case StatusConnected => "Connected"
    case StatusDisconnected => "Disconnected"
    case StatusError => "Error: see browser console"
  }

  /** Only "connected" gets the connected class; the three statuses show
      three different texts. */
  lemma StatusDisplayDistinguishes()
    ensures forall c :: StatusClass(c) == "status-connected" <==> c == StatusConnected
    ensures forall c, d :: StatusText(c) == StatusText(d) ==> c == d
  {
  }

  /** `updateConnectionStatus`: sets the container class and the
      `.connection-status` text; a no-op once the spans are gone. */
  function UpdateConnectionStatus(area: StatusArea, c: ConnectionStatus): (a: StatusArea)
    ensures a.StatusSpans? <==> area.StatusSpans?
    ensures area.StatusReplaced? ==> a == area
    ensures area.StatusSpans? ==>
              && a.containerClass == (if c == StatusConnected then "status-connected" else "status-disconnected")
              && a.connectionText == StatusText(c)
              && a.serverLabel == area.serverLabel
  {
    StatusDisplayDistinguishes();
    match area
    case StatusSpans(_, _, serverLabel) => StatusSpans(StatusClass(c), StatusText(c), serverLabel)
    case StatusReplaced(_, _) => area
  }

  // The state every step keeps.

  /** The reconnect counter stays within its cap; the unread counter is
      zero while the page is visible; every displayed key uuid is remembered, and none is
      displayed twice; the title is well formed. */
  predicate Valid(s: ChatState) {
    && s.reconnectAttempts <= MaxReconnectAttempts
    && (s.visible ==> s.unread == 0)
    && (forall r :: r in s.displayedIds ==> IsKey(r))
    && (forall i :: 0 <= i < |s.messages| && IsKey(s.messages[i].uuid) ==> s.messages[i].uuid in s.displayedIds)
    && (forall i, j :: 0 <= i < j < |s.messages| && IsKey(s.messages[i].uuid) ==> s.messages[i].uuid != s.messages[j].uuid)
    && TitleWellFormed(s.baseTitle, s.title)
  }

  /** The page just loaded: the title is the base title, `connect()` has
      opened a socket, and nothing is displayed yet. */
  function Init(baseTitle: string, status: StatusArea, visible: bool): (s: ChatState)
    ensures Valid(s)
    ensures s.title == s.baseTitle == baseTitle && s.socket == Connecting
    ensures s.reconnectAttempts == 0 && s.unread == 0 && s.messages == [] && s.displayedIds == {}
  {
    ChatState(baseTitle, baseTitle, status, Connecting, 0, false, visible, 0, {}, [], "", [])
  }

  // Incoming frames.

  /** `displayChatMessage`'s placement: history is appended at the bottom,
      live messages go on top. */
  function Place(messages: seq<DisplayedMessage>, d: DisplayedMessage): (r: seq<DisplayedMessage>)
    ensures |r| == |messages| + 1
    ensures d.history ==> r == messages + [d]
    ensures !d.history ==> r == [d] + messages
    ensures multiset(r) == multiset(messages) + multiset{d}
  {
    if d.history then messages + [d] else [d] + messages
  }

  /** The `chatMessage` branch: reading `message.payload.uuid` throws when
      the payload is missing or null; a seen uuid ends the handler; a new one
      is remembered, and the message is displayed with the payload's
      component and history flag and the envelope's timestamp. The display
      callback converts the timestamp with `toISOString` before it places
      the element, so a timestamp that is no valid time leaves the list as
      it was. `parsesAsDate` is the browser's `Date.parse` verdict on text. */
  function HandleChat(s: ChatState, message: JsonValue, parsesAsDate: string -> bool): (r: Result<ChatState, JsError>)
    requires message.JObj?
    ensures r.Failure? <==> !Readable(ReadProperty(Val(message), "payload"))
    ensures r.Success? ==>
              var payload := ReadProperty(Val(message), "payload");
              var uuid := ReadProperty(payload, "uuid");
              var timestamp := ReadProperty(Val(message), "timestamp");
              var shown := DisplayedMessage(uuid, ReadProperty(payload, "component"), timestamp,
                                            Truthy(ReadProperty(payload, "history")));
              && r.value.displayedIds == Remember(s.displayedIds, uuid)
              && (Seen(s.displayedIds, uuid) ==> r.value == s)
              && (!Seen(s.displayedIds, uuid) && ValidTime(timestamp, parsesAsDate) ==> r.value == Display(s, shown))
              && (!Seen(s.displayedIds, uuid) && !ValidTime(timestamp, parsesAsDate) ==>
                    r.value == s.(displayedIds := Remember(s.displayedIds, uuid)))
  {
    var payload := ReadProperty(Val(message), "payload");
    if !Readable(payload) then Failure(TypeError)
    else
      var uuid := ReadProperty(payload, "uuid");
      if Seen(s.displayedIds, uuid) then Success(s)
      else
        var component := ReadProperty(payload, "component");
        var timestamp := ReadProperty(Val(message), "timestamp");
        var history := ReadProperty(payload, "history");
        if ValidTime(timestamp, parsesAsDate) then
          Success(Display(s, DisplayedMessage(uuid, component, timestamp, Truthy(history))))
        else
          Success(s.(displayedIds := Remember(s.displayedIds, uuid)))
  }

  /** Remembers a message's uuid and places it in the list. */
  function Display(s: ChatState, d: DisplayedMessage): (t: ChatState)
    ensures t.displayedIds == Remember(s.displayedIds, d.uuid)
    ensures t.messages == Place(s.messages, d)
    ensures t.(displayedIds := s.displayedIds, messages := s.messages) == s
  {
    s.(displayedIds := Remember(s.displayedIds, d.uuid), messages := Place(s.messages, d))
  }

  /** Displaying a message whose uuid is not yet seen keeps the state valid. */
  lemma DisplayNewKeepsValid(s: ChatState, d: DisplayedMessage)
    requires Valid(s)
    requires !Seen(s.displayedIds, d.uuid)
    ensures Valid(Display(s, d))
  {
    var ms := Place(s.messages, d);
    forall i | 0 <= i < |s.messages| && IsKey(s.messages[i].uuid)
      ensures s.messages[i].uuid != d.uuid
    {
      assert s.messages[i].uuid in s.displayedIds;
    }
    if d.history {
      assert forall i :: 0 <= i < |s.messages| ==> ms[i] == s.messages[i];
    } else {
      assert forall i :: 0 < i < |ms| ==> ms[i] == s.messages[i - 1];
    }
  }

  /** The `chatMessage` branch keeps the state valid. */
  lemma HandleChatPreservesValid(s: ChatState, message: JsonValue, parsesAsDate: string -> bool)
    requires Valid(s) && message.JObj?
    ensures HandleChat(s, message, parsesAsDate).Success? ==> Valid(HandleChat(s, message, parsesAsDate).value)
  {
    var r := HandleChat(s, message, parsesAsDate);
    if r.Success? {
      var payload := ReadProperty(Val(message), "payload");
      var uuid := ReadProperty(payload, "uuid");
      var timestamp := ReadProperty(Val(message), "timestamp");
      if !Seen(s.displayedIds, uuid) && ValidTime(timestamp, parsesAsDate) {
        DisplayNewKeepsValid(s, DisplayedMessage(uuid, ReadProperty(payload, "component"), timestamp,
                                                 Truthy(ReadProperty(payload, "history"))));
      }
    }
  }

  /** The `serverConnectionState` branch: `join` shows the server's name
      (reading `message.server.name` throws when `server` is missing or
      null), `disconnect` clears it, anything else changes nothing. */
  function HandleConnectionState(s: ChatState, message: JsonValue): (r: Result<ChatState, JsError>)
    requires message.JObj?
    ensures r.Failure? <==>
              ReadProperty(Val(message), "payload") == Val(JStr("join")) && !Readable(ReadProperty(Val(message), "server"))
    ensures r.Success? && ReadProperty(Val(message), "payload") == Val(JStr("join")) ==>
              r.value == UpdateServerName(s, ReadProperty(ReadProperty(Val(message), "server"), "name"))
    ensures ReadProperty(Val(message), "payload") == Val(JStr("disconnect")) ==> r == Success(UpdateServerName(s, Undefined))
    ensures ReadProperty(Val(message), "payload") !in {Val(JStr("join")), Val(JStr("disconnect"))} ==> r == Success(s)
  {
    var payload := ReadProperty(Val(message), "payload");
    if payload == Val(JStr("join")) then
      var server := ReadProperty(Val(message), "server");
      if !Readable(server) then Failure(TypeError)
      else Success(UpdateServerName(s, ReadProperty(server, "name")))
    else if payload == Val(JStr("disconnect")) then Success(UpdateServerName(s, Undefined))
    else Success(s)
  }

  /** `ws.onmessage`, given the outcome of `JSON.parse` on the frame: the
      unread counter counts every frame while the page is hidden, before
      anything is parsed; a frame that does not parse or pass the guard, or
      whose handler throws, changes nothing else. `parsesAsDate` is the
      browser's `Date.parse` verdict on text, which decides whether a chat
      message's timestamp is a valid time. */
  function OnFrame(s: ChatState, decoded: Option<JsonValue>, parsesAsDate: string -> bool): (t: ChatState)
    ensures t.unread == if s.visible then s.unread else s.unread + 1
    ensures t.socket == s.socket && t.reconnectAttempts == s.reconnectAttempts
    ensures t.reconnectPending == s.reconnectPending && t.visible == s.visible
    ensures t.input == s.input && t.outbox == s.outbox && t.baseTitle == s.baseTitle
    ensures s.displayedIds <= t.displayedIds
    ensures ParseModServerMessage(decoded).Failure? ==> t == s.(unread := t.unread)
    ensures ParseModServerMessage(decoded).Success? && decoded.value.fields["type"] == JStr("chatMessage") ==>
              var handled := HandleChat(CountUnread(s), decoded.value, parsesAsDate);
              && (handled.Success? ==> t == handled.value)
              && (handled.Failure? ==> t == CountUnread(s))
              && t.title == s.title && t.status == s.status
    ensures ParseModServerMessage(decoded).Success? && decoded.value.fields["type"] != JStr("chatMessage") ==>
              var handled := HandleConnectionState(CountUnread(s), decoded.value);
              && (handled.Success? ==> t == handled.value)
              && (handled.Failure? ==> t == CountUnread(s))
              && t.messages == s.messages && t.displayedIds == s.displayedIds
  {
    var counted := CountUnread(s);
    match ParseModServerMessage(decoded)
    case Failure(_) => counted
    case Success(message) =>
      var handled :=
        if message.fields["type"] == JStr("chatMessage") then HandleChat(counted, message, parsesAsDate)
        else HandleConnectionState(counted, message);
      if handled.Success? then handled.value else counted
  }

  /** The frame counter: a frame arriving while the page is hidden is one
      more unread frame. */
  function CountUnread(s: ChatState): (t: ChatState)
    ensures t.unread == if s.visible then s.unread else s.unread + 1
    ensures t.(unread := s.unread) == s
    ensures Valid(s) ==> Valid(t)
  {
    if s.visible then s else s.(unread := s.unread + 1)
  }

  /** A frame keeps the state valid: in particular a uuid already displayed
      is never displayed again. */
  lemma OnFramePreservesValid(s: ChatState, decoded: Option<JsonValue>, parsesAsDate: string -> bool)
    requires Valid(s)
    ensures Valid(OnFrame(s, decoded, parsesAsDate))
  {
    var counted := CountUnread(s);
    if ParseModServerMessage(decoded).Success? {
      var message := decoded.value;
      if message.fields["type"] == JStr("chatMessage") {
        HandleChatPreservesValid(counted, message, parsesAsDate);
      }
    }
  }

  /** Once a uuid has been displayed, a frame carrying it again adds
      nothing to the list. */
  lemma SeenUuidNotDisplayedAgain(s: ChatState, message: JsonValue, parsesAsDate: string -> bool)
    requires message.JObj? && "payload" in message.fields && message.fields["payload"].JObj?
    requires "uuid" in message.fields["payload"].fields
    requires Seen(s.displayedIds, Val(message.fields["payload"].fields["uuid"]))
    ensures HandleChat(s, message, parsesAsDate) == Success(s)
  {
  }

  // Socket events and the reconnect timer.

  /** `connect()`: a new socket, connecting. */
  function Connect(s: ChatState): (t: ChatState)
    ensures t.socket == Connecting && !t.reconnectPending
    ensures t.(socket := s.socket, reconnectPending := s.reconnectPending) == s
  {
    s.(socket := Connecting, reconnectPending := false)
  }

  /** `ws.onopen`. */
  function OnOpen(s: ChatState): (t: ChatState)
    ensures t.socket == Open
    ensures t.status == UpdateConnectionStatus(s.status, StatusConnected)
    ensures t.(socket := s.socket, status := s.status) == s
  {
    s.(socket := Open, status := UpdateConnectionStatus(s.status, StatusConnected))
  }

  /** `ws.onerror`: only the status changes. */
  function OnError(s: ChatState): (t: ChatState)
    ensures t.status == UpdateConnectionStatus(s.status, StatusError)
    ensures t.(status := s.status) == s
  {
    s.(status := UpdateConnectionStatus(s.status, StatusError))
  }

  /** `ws.onclose`: shows "Disconnected" and schedules a reconnect while
      fewer than the maximum number of attempts have been made. The counter
      is never reset, so reconnects stop for good after the last one. */
  function OnClose(s: ChatState): (t: ChatState)
    ensures t.socket == Closed
    ensures t.status == UpdateConnectionStatus(s.status, StatusDisconnected)
    ensures s.reconnectAttempts < MaxReconnectAttempts ==>
              t.reconnectAttempts == s.reconnectAttempts + 1 && t.reconnectPending
    ensures s.reconnectAttempts >= MaxReconnectAttempts ==>
              t.reconnectAttempts == s.reconnectAttempts && t.reconnectPending == s.reconnectPending
    ensures t.(socket := s.socket, status := s.status, reconnectAttempts := s.reconnectAttempts,
               reconnectPending := s.reconnectPending) == s
  {
    var closed := s.(socket := Closed, status := UpdateConnectionStatus(s.status, StatusDisconnected));
    if s.reconnectAttempts < MaxReconnectAttempts then
      closed.(reconnectAttempts := s.reconnectAttempts + 1, reconnectPending := true)
    else closed
  }

  /** The two-second timer `onclose` set: it runs `connect()`. */
  function ReconnectTimer(s: ChatState): (t: ChatState)
    ensures s.reconnectPending ==> t == Connect(s)
    ensures !s.reconnectPending ==> t == s
  {
    if s.reconnectPending then Connect(s) else s
  }

  // Visibility and sending.

  /** The `visibilitychange` listener: becoming visible clears the unread
      counter. */
  function OnVisibilityChange(s: ChatState, visible: bool): (t: ChatState)
    ensures t.visible == visible
    ensures visible ==> t.unread == 0
    ensures !visible ==> t.unread == s.unread
    ensures t.(visible := s.visible, unread := s.unread) == s
  {
    if visible then s.(visible := true, unread := 0) else s.(visible := false)
  }

  /** The characters `String.prototype.trim` strips: the white space and
      line terminator characters of ECMAScript. */
  const JsWhitespace: set<char> := {
    '\t', '\n', '\U{000B}', '\U{000C}', '\r', ' ', '\U{00A0}', '\U{1680}',
    '\U{2000}', '\U{2001}', '\U{2002}', '\U{2003}', '\U{2004}', '\U{2005}', '\U{2006}',
    '\U{2007}', '\U{2008}', '\U{2009}', '\U{200A}', '\U{2028}', '\U{2029}', '\U{202F}',
    '\U{205F}', '\U{3000}', '\U{FEFF}'}

  predicate IsJsWhitespace(c: char) {
    c in JsWhitespace
  }

  /** The text is empty or white space only. */
  predicate Blank(text: string) {
    forall i :: 0 <= i < |text| ==> IsJsWhitespace(text[i])
  }

  /** Strips leading white space: the result is the suffix of the text after
      its leading white space. */
  function TrimStart(text: string): (r: string)
    ensures |r| <= |text| && r == text[|text| - |r|..]
    ensures forall i :: 0 <= i < |text| - |r| ==> IsJsWhitespace(text[i])
    ensures |r| > 0 ==> !IsJsWhitespace(r[0])
  {
    if |text| > 0 && IsJsWhitespace(text[0]) then
      var r := TrimStart(text[1..]);
      assert forall i :: 0 < i < |text| - |r| ==> text[i] == text[1..][i - 1];
      r
    else text
  }

  /** Strips trailing white space: the result is the prefix of the text
      before its trailing white space. */
  function TrimEnd(text: string): (r: string)
    ensures |r| <= |text| && r == text[..|r|]
    ensures forall i :: |r| <= i < |text| ==> IsJsWhitespace(text[i])
    ensures |r| > 0 ==> !IsJsWhitespace(r[|r| - 1])
  {
    if |text| > 0 && IsJsWhitespace(text[|text| - 1]) then
      var r := TrimEnd(text[..|text| - 1]);
      assert forall i :: |r| <= i < |text| - 1 ==> text[i] == text[..|text| - 1][i];
      r
    else text
  }

  /** What is left after stripping leading white space is empty exactly
      when the text is blank. */
  lemma TrimStartBlank(text: string)
    ensures TrimStart(text) == "" <==> Blank(text)
  {
    var start := TrimStart(text);
    if start != "" {
      assert text[|text| - |start|] == start[0];
    }
  }

  /** `String.prototype.trim`: the text without leading and trailing white
      space; empty exactly when the text is blank. */
  function Trim(text: string): (r: string)
    ensures r == "" <==> Blank(text)
    ensures r <= TrimStart(text)
    ensures forall i :: |r| <= i < |TrimStart(text)| ==> IsJsWhitespace(TrimStart(text)[i])
    ensures |r| > 0 ==> !IsJsWhitespace(r[0]) && !IsJsWhitespace(r[|r| - 1])
  {
    var start := TrimStart(text);
    TrimStartBlank(text);
    assert |start| > 0 ==> !IsJsWhitespace(start[0]);
    TrimEnd(start)
  }

  const NotSentText: string := "Not connected - message not sent"

  /** `sendMessage`: sends the input as typed (untrimmed) and clears it only
      when the socket is open and the input is not blank; blank input does
      nothing; otherwise the status area is overwritten with the not-sent
      notice. */
  function SendMessage(s: ChatState): (t: ChatState)
    ensures s.socket == Open && !Blank(s.input) ==> t == s.(outbox := s.outbox + [s.input], input := "")
    ensures Blank(s.input) ==> t == s
    ensures s.socket != Open && !Blank(s.input) ==>
              t == s.(status := StatusReplaced("status-disconnected", NotSentText))
    ensures |t.outbox| == |s.outbox| + 1 <==> s.socket == Open && !Blank(s.input)
  {
    if s.socket == Open && Trim(s.input) != "" then s.(outbox := s.outbox + [s.input], input := "")
    else if Trim(s.input) == "" then s
    else s.(status := StatusReplaced("status-disconnected", NotSentText))
  }

  /** Once the status text has been overwritten, connection events no longer
      change the status area, and a server change only changes the title. */
  lemma ReplacedStatusIsFinal(s: ChatState, addition: JsRef)
    requires s.status.StatusReplaced?
    ensures OnOpen(s).status == OnClose(s).status == OnError(s).status == s.status
    ensures UpdateServerName(s, addition).status == s.status
  {
  }

  // Events and runs.

  /** Everything that can happen to the page. `Typed` is the user editing
      the input box; `Enter` is the Enter key, which calls `sendMessage`. */
  datatype Event =
    | Frame(decoded: Option<JsonValue>)
    | SocketOpened
    | SocketClosed
    | SocketError
    | TimerFired
    | VisibilityChanged(visible: bool)
    | Typed(text: string)
    | Enter

  /** The page's reaction to one event, in a browser whose `Date.parse`
      accepts exactly the texts `parsesAsDate` holds for. */
  function Step(s: ChatState, e: Event, parsesAsDate: string -> bool): (t: ChatState) {
    match e
    case Frame(decoded) => OnFrame(s, decoded, parsesAsDate)
    case SocketOpened => OnOpen(s)
    case SocketClosed => OnClose(s)
    case SocketError => OnError(s)
    case TimerFired => ReconnectTimer(s)
    case VisibilityChanged(visible) => OnVisibilityChange(s, visible)
    case Typed(text) => s.(input := text)
    case Enter => SendMessage(s)
  }

  /** The page after a sequence of events, first to last. */
  function Run(s: ChatState, events: seq<Event>, parsesAsDate: string -> bool): (t: ChatState)
    decreases |events|
  {
    if |events| == 0 then s else Run(Step(s, events[0], parsesAsDate), events[1..], parsesAsDate)
  }

  /** Every event keeps the state valid, and only adds to the dedup set. */
  lemma StepPreservesValid(s: ChatState, e: Event, parsesAsDate: string -> bool)
    requires Valid(s)
    ensures Valid(Step(s, e, parsesAsDate))
    ensures s.displayedIds <= Step(s, e, parsesAsDate).displayedIds
    ensures Step(s, e, parsesAsDate).baseTitle == s.baseTitle
    ensures s.reconnectAttempts <= Step(s, e, parsesAsDate).reconnectAttempts
  {
    match e
    case Frame(decoded) => OnFramePreservesValid(s, decoded, parsesAsDate);
    case SocketOpened => SameDisplayKeepsValid(s, OnOpen(s));
    case SocketClosed => SameDisplayKeepsValid(s, OnClose(s));
    case SocketError => SameDisplayKeepsValid(s, OnError(s));
    case TimerFired => SameDisplayKeepsValid(s, ReconnectTimer(s));
    case VisibilityChanged(visible) => SameDisplayKeepsValid(s, OnVisibilityChange(s, visible));
    case Typed(text) => SameDisplayKeepsValid(s, s.(input := text));
    case Enter => SameDisplayKeepsValid(s, SendMessage(s));
  }

  /** A step that leaves the title, the dedup set and the list alone, keeps
      the counters within their bounds, keeps the state valid. */
  lemma SameDisplayKeepsValid(s: ChatState, t: ChatState)
    requires Valid(s)
    requires t.baseTitle == s.baseTitle && t.title == s.title
    requires t.displayedIds == s.displayedIds && t.messages == s.messages
    requires t.reconnectAttempts <= MaxReconnectAttempts
    requires t.visible ==> t.unread == 0
    ensures Valid(t)
  {
  }

  /** Over any run of events from a valid state: the state stays valid, so
      no more than 300 reconnects are ever made, no key uuid is displayed
      twice, and the dedup set only grows. */
  lemma {:induction false} RunPreservesValid(s: ChatState, events: seq<Event>, parsesAsDate: string -> bool)
    requires Valid(s)
    ensures Valid(Run(s, events, parsesAsDate))
    ensures s.displayedIds <= Run(s, events, parsesAsDate).displayedIds
    ensures s.reconnectAttempts <= Run(s, events, parsesAsDate).reconnectAttempts <= MaxReconnectAttempts
    decreases |events|
  {
    if |events| > 0 {
      StepPreservesValid(s, events[0], parsesAsDate);
      RunPreservesValid(Step(s, events[0], parsesAsDate), events[1..], parsesAsDate);
    }
  }

  /** Once the reconnect counter is at its cap, a close schedules nothing
      and the counter stays put. */
  lemma NoReconnectAfterCap(s: ChatState)
    requires Valid(s) && s.reconnectAttempts == MaxReconnectAttempts && !s.reconnectPending
    ensures !OnClose(s).reconnectPending && OnClose(s).reconnectAttempts == MaxReconnectAttempts
    ensures ReconnectTimer(OnClose(s)) == OnClose(s)
  {
  }

  /** Joining a server and then leaving it restores the base title. */
  lemma JoinThenDisconnectRestoresTitle(s: ChatState, name: JsRef)
    ensures UpdateServerName(UpdateServerName(s, name), Undefined).title == s.baseTitle
  {
  }
}
