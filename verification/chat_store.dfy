/** The chat history store (`ChatMessageRepository`) as operations on an
    in-memory table: the schema-version check, saving a chat envelope as a
    row, and reading a server's newest rows back as history envelopes. */
module ChatStore {
  import opened Wrappers
  import opened Json
  import opened Wire
  import opened MessageBuilder

  const CurrentSchemaVersion: int := 1

  /** The schema check's failures: the stored version is newer than this
      build supports (a downgrade) or older (no migration exists). */
  datatype SchemaError = NewerThanSupported(dbVersion: int) | OlderThanSupported(dbVersion: int)

  /** `checkSchemaVersion` on the rows of the version table, in the order the
      query returns them. An empty table gets the current version inserted;
      otherwise the first row's version decides. On success the result is the
      table as it is afterwards. */
  function CheckSchemaVersion(versionTable: seq<int>): (r: Result<seq<int>, SchemaError>)
    ensures versionTable == [] ==> r == Success([CurrentSchemaVersion])
    ensures versionTable != [] && versionTable[0] > CurrentSchemaVersion ==> r == Failure(NewerThanSupported(versionTable[0]))
    ensures versionTable != [] && versionTable[0] < CurrentSchemaVersion ==> r == Failure(OlderThanSupported(versionTable[0]))
    ensures versionTable != [] && versionTable[0] == CurrentSchemaVersion ==> r == Success(versionTable)
    ensures r.Success? ==> r.value != [] && r.value[0] == CurrentSchemaVersion
  {
    if versionTable == [] then Success([CurrentSchemaVersion])
    else
      var dbVersion := versionTable[0];
      if dbVersion > CurrentSchemaVersion then Failure(NewerThanSupported(dbVersion))
      else if dbVersion < CurrentSchemaVersion then Failure(OlderThanSupported(dbVersion))
      else Success(versionTable)
  }

  /** Once the check has passed, running it again (the next start of the
      game) passes and changes nothing. */
  lemma SchemaCheckIdempotent(versionTable: seq<int>)
    requires CheckSchemaVersion(versionTable).Success?
    ensures CheckSchemaVersion(CheckSchemaVersion(versionTable).value) == CheckSchemaVersion(versionTable)
  {
  }

  /** One row of the `messages` table; its position in the table stands for
      the auto-incremented id. */
  datatype Row = Row(
    timestamp: int,
    serverId: string,
    serverName: string,
    messageId: string,
    messageJson: string,
    minecraftVersion: string)

  /** Why a message could not be saved: the payload is not a JSON object
      (`IllegalArgumentException`), it has no `uuid` or no `component`
      (a null dereference), or its `uuid` is not a string. */
  datatype SaveError = PayloadNotJsonObject | MissingUuid | UuidNotString | MissingComponent

  /** The payload fields `saveMessage` needs are present and usable. */
  predicate SavablePayload(p: Payload) {
    && p.JsonPayload? && p.json.JObj?
    && "uuid" in p.json.fields && p.json.fields["uuid"].JStr?
    && "component" in p.json.fields
  }

  /** `saveMessage`: appends one row holding the envelope's timestamp, server
      identifier and name, payload uuid, component JSON text and game
      version. A failure stores nothing. */
  function SaveMessage(table: seq<Row>, message: WebsocketJsonMessage, codec: JsonCodec): (r: Result<seq<Row>, SaveError>)
    ensures r.Success? <==> SavablePayload(message.payload)
    ensures !(message.payload.JsonPayload? && message.payload.json.JObj?) ==> r == Failure(PayloadNotJsonObject)
    ensures r.Success? ==>
              && |r.value| == |table| + 1
              && r.value[..|table|] == table
              && r.value[|table|].timestamp == message.timestamp
              && r.value[|table|].serverId == message.server.identifier
              && r.value[|table|].serverName == message.server.name
              && JStr(r.value[|table|].messageId) == message.payload.json.fields["uuid"]
              && r.value[|table|].messageJson == codec.encode(message.payload.json.fields["component"])
              && r.value[|table|].minecraftVersion == message.minecraftVersion
  {
    match message.payload
    case StatePayload(_) => Failure(PayloadNotJsonObject)
    case JsonPayload(json) =>
      if !json.JObj? then Failure(PayloadNotJsonObject)
      else if "uuid" !in json.fields then Failure(MissingUuid)
      else if !json.fields["uuid"].JStr? then Failure(UuidNotString)
      else if "component" !in json.fields then Failure(MissingComponent)
      else
        var row := Row(
          message.timestamp, message.server.identifier, message.server.name,
          json.fields["uuid"].str, codec.encode(json.fields["component"]), message.minecraftVersion);
        Success(table + [row])
  }

  // The query `WHERE server_id = ? ORDER BY timestamp DESC LIMIT ?`.

  /** The rows of one server, in table order. */
  function RowsOfServer(rows: seq<Row>, serverId: string): (r: seq<Row>)
    ensures forall i :: 0 <= i < |r| ==> r[i].serverId == serverId
    ensures forall row: Row :: multiset(r)[row] == if row.serverId == serverId then multiset(rows)[row] else 0
  {
    if |rows| == 0 then []
    else
      assert rows == [rows[0]] + rows[1..];
      (if rows[0].serverId == serverId then [rows[0]] else []) + RowsOfServer(rows[1..], serverId)
  }

  predicate SortedByTimestampDesc(rows: seq<Row>) {
    forall i, j :: 0 <= i < j < |rows| ==> rows[i].timestamp >= rows[j].timestamp
  }

  /** Inserts a row before the first row that is not newer than it. */
  function InsertByTimestamp(row: Row, sorted: seq<Row>): (r: seq<Row>)
    requires SortedByTimestampDesc(sorted)
    ensures SortedByTimestampDesc(r)
    ensures multiset(r) == multiset(sorted) + multiset{row}
    ensures |r| > 0 && (r[0] == row || (|sorted| > 0 && r[0] == sorted[0]))
  {
    if |sorted| == 0 || sorted[0].timestamp <= row.timestamp then [row] + sorted
    else
      assert sorted == [sorted[0]] + sorted[1..];
      [sorted[0]] + InsertByTimestamp(row, sorted[1..])
  }

  /** The rows newest first; rows with equal timestamps keep table order. */
  function SortByTimestampDesc(rows: seq<Row>): (r: seq<Row>)
    ensures SortedByTimestampDesc(r)
    ensures multiset(r) == multiset(rows)
  {
    if |rows| == 0 then []
    else
      assert rows == [rows[0]] + rows[1..];
      InsertByTimestamp(rows[0], SortByTimestampDesc(rows[1..]))
  }

  /** SQLite's `LIMIT`: a negative limit means no limit. */
  function Limit(rows: seq<Row>, limit: int): (r: seq<Row>)
    ensures limit < 0 ==> r == rows
    ensures limit >= 0 ==> r == rows[..if limit < |rows| then limit else |rows|]
  {
    if limit < 0 || limit >= |rows| then rows else rows[..limit]
  }

  /** Cutting a newest-first list after `k` rows leaves out no row newer
      than one kept. */
  lemma {:induction false} PrefixKeepsNewest(sorted: seq<Row>, k: nat)
    requires SortedByTimestampDesc(sorted)
    requires k <= |sorted|
    ensures forall row: Row :: multiset(sorted[..k])[row] < multiset(sorted)[row] ==>
              forall i :: 0 <= i < k ==> sorted[i].timestamp >= row.timestamp
  {
    assert sorted == sorted[..k] + sorted[k..];
    forall row: Row | multiset(sorted[..k])[row] < multiset(sorted)[row]
      ensures forall i :: 0 <= i < k ==> sorted[i].timestamp >= row.timestamp
    {
      assert multiset(sorted)[row] == multiset(sorted[..k])[row] + multiset(sorted[k..])[row];
      assert row in sorted[k..];
      var j :| 0 <= j < |sorted[k..]| && sorted[k..][j] == row;
      assert sorted[k + j] == row;
    }
  }

  /** The rows of one server are a part of the table. */
  lemma RowsOfServerWithinTable(table: seq<Row>, serverId: string)
    ensures multiset(RowsOfServer(table, serverId)) <= multiset(table)
  {
    var m := RowsOfServer(table, serverId);
    forall row: Row
      ensures multiset(m)[row] <= multiset(table)[row]
    {
    }
  }

  /** A prefix of a newest-first list of one server's rows is again
      newest first, of that server, and part of the list. */
  lemma PrefixFacts(s: seq<Row>, n: nat, serverId: string)
    requires n <= |s|
    requires SortedByTimestampDesc(s)
    requires forall i :: 0 <= i < |s| ==> s[i].serverId == serverId
    ensures SortedByTimestampDesc(s[..n])
    ensures forall i :: 0 <= i < n ==> s[..n][i].serverId == serverId
    ensures multiset(s[..n]) <= multiset(s)
  {
    assert s == s[..n] + s[n..];
  }

  /** One server's rows, newest first. Every row of the table with that
      server occurs here as often as in the table, and no other row does. */
  function ServerRowsNewestFirst(table: seq<Row>, serverId: string): (s: seq<Row>)
    ensures SortedByTimestampDesc(s)
    ensures multiset(s) == multiset(RowsOfServer(table, serverId))
    ensures |s| == |RowsOfServer(table, serverId)|
    ensures forall i :: 0 <= i < |s| ==> s[i].serverId == serverId
    ensures multiset(s) <= multiset(table)
    ensures forall row: Row :: row.serverId == serverId ==> multiset(s)[row] == multiset(table)[row]
  {
    var matching := RowsOfServer(table, serverId);
    var sorted := SortByTimestampDesc(matching);
    forall i | 0 <= i < |sorted|
      ensures sorted[i].serverId == serverId
    {
      assert sorted[i] in multiset(matching);
      var j :| 0 <= j < |matching| && matching[j] == sorted[i];
    }
    assert |sorted| == |matching| by {
      assert |multiset(sorted)| == |multiset(matching)|;
    }
    RowsOfServerWithinTable(table, serverId);
    sorted
  }

  /** The rows the history query returns: rows of the requested server only,
      newest first, drawn from the table, as many as the limit allows (all of
      them when the limit is negative). */
  function QueryRows(table: seq<Row>, serverId: string, limit: int): (q: seq<Row>)
    ensures forall i :: 0 <= i < |q| ==> q[i].serverId == serverId
    ensures SortedByTimestampDesc(q)
    ensures multiset(q) <= multiset(table)
    ensures limit >= 0 ==> |q| == (if limit < |RowsOfServer(table, serverId)| then limit else |RowsOfServer(table, serverId)|)
    ensures limit < 0 ==> multiset(q) == multiset(RowsOfServer(table, serverId))
  {
    var sorted := ServerRowsNewestFirst(table, serverId);
    var n := if limit < 0 || limit >= |sorted| then |sorted| else limit;
    PrefixFacts(sorted, n, serverId);
    assert Limit(sorted, limit) == sorted[..n];
    assert n == |sorted| ==> sorted[..n] == sorted;
    Limit(sorted, limit)
  }

  /** The limit cuts off the oldest rows: a row of the server that the query
      leaves out is no newer than any row it returns. */
  lemma QueryReturnsNewest(table: seq<Row>, serverId: string, limit: int)
    ensures var q := QueryRows(table, serverId, limit);
            forall row: Row :: row.serverId == serverId && multiset(q)[row] < multiset(table)[row] ==>
              forall i :: 0 <= i < |q| ==> q[i].timestamp >= row.timestamp
  {
    var sorted := ServerRowsNewestFirst(table, serverId);
    var q := QueryRows(table, serverId, limit);
    QueryIsPrefix(table, serverId, limit);
    PrefixKeepsNewest(sorted, |q|);
  }

  /** A chat envelope whose payload is flagged as history. */
  predicate IsHistoryEnvelope(m: WebsocketJsonMessage) {
    && m.msgType == ChatMessage
    && m.payload.JsonPayload? && m.payload.json.JObj?
    && "history" in m.payload.json.fields && m.payload.json.fields["history"] == JBool(true)
  }

  /** How many rows the result loop reads: all of them, or those read
      before the database raised an error after `failAfter` rows. */
  function ReadCount(rowCount: nat, failAfter: Option<nat>): (n: nat)
    ensures n <= rowCount
    ensures failAfter.None? ==> n == rowCount
  {
    if failAfter.Some? && failAfter.value < rowCount then failAfter.value else rowCount
  }

  /** The stored components of the first `n` rows are all JSON objects (or
      empty text), so Gson reads each of them back. */
  predicate StoredComponentsParse(rows: seq<Row>, n: nat, codec: JsonCodec)
    requires n <= |rows|
  {
    forall i :: 0 <= i < n ==> GsonObjectFromJson(codec, rows[i].messageJson).Success?
  }

  lemma StoredComponentsParseCons(rows: seq<Row>, n: nat, codec: JsonCodec)
    requires 0 < n <= |rows|
    ensures StoredComponentsParse(rows, n, codec) <==>
              GsonObjectFromJson(codec, rows[0].messageJson).Success? && StoredComponentsParse(rows[1..], n - 1, codec)
  {
    assert forall i :: 0 < i < n ==> rows[i] == rows[1..][i - 1];
  }

  /** The history envelopes built from the queried rows. `failAfter` is the
      number of rows read before the database raised an error (`None`: no
      error); such an error ends the list early and is not propagated. A
      stored component that is not a JSON object does propagate. */
  function BuildHistory(rows: seq<Row>, serverId: string, codec: JsonCodec, failAfter: Option<nat>)
    : (r: Result<seq<WebsocketJsonMessage>, HistoryError>)
    ensures r.Success? <==> StoredComponentsParse(rows, ReadCount(|rows|, failAfter), codec)
    ensures r.Success? ==> |r.value| == ReadCount(|rows|, failAfter)
    ensures r.Success? ==> forall i :: 0 <= i < |r.value| ==>
              CreateHistoricChatMessage(rows[i].timestamp, serverId, rows[i].serverName, rows[i].messageId,
                                        rows[i].messageJson, rows[i].minecraftVersion, codec) == Success(r.value[i])
  {
    if |rows| == 0 || failAfter == Some(0) then Success([])
    else
      var first := rows[0];
      var tail := rows[1..];
      var tailFail := if failAfter.Some? then Some(failAfter.value - 1) else None;
      assert ReadCount(|rows|, failAfter) == ReadCount(|tail|, tailFail) + 1;
      StoredComponentsParseCons(rows, ReadCount(|rows|, failAfter), codec);
      match CreateHistoricChatMessage(first.timestamp, serverId, first.serverName, first.messageId,
                                      first.messageJson, first.minecraftVersion, codec)
      case Failure(e) => Failure(e)
      case Success(m) =>
        var rest := BuildHistory(tail, serverId, codec, tailFail);
        if rest.Failure? then rest
        else
          var out := [m] + rest.value;
          assert forall i :: 0 < i < |out| ==> out[i] == rest.value[i - 1] && rows[i] == tail[i - 1];
          Success(out)
  }

  /** `getMessages`: the newest `limit` messages of one server, newest first,
      each a history envelope of one stored row of that server: the i-th
      envelope is rebuilt from the i-th row the query returns, and every
      returned row is rebuilt unless the database failed first. */
  function GetMessages(table: seq<Row>, serverId: string, limit: int, codec: JsonCodec, failAfter: Option<nat>)
    : (r: Result<seq<WebsocketJsonMessage>, HistoryError>)
    ensures var q := QueryRows(table, serverId, limit);
            r.Success? <==> StoredComponentsParse(q, ReadCount(|q|, failAfter), codec)
    ensures var q := QueryRows(table, serverId, limit);
            r.Success? ==> |r.value| == ReadCount(|q|, failAfter)
    ensures var q := QueryRows(table, serverId, limit);
            r.Success? ==> forall i :: 0 <= i < |r.value| ==>
              CreateHistoricChatMessage(q[i].timestamp, serverId, q[i].serverName, q[i].messageId,
                                        q[i].messageJson, q[i].minecraftVersion, codec) == Success(r.value[i])
    ensures r.Success? && limit >= 0 ==> |r.value| <= limit
    ensures r.Success? ==> forall i :: 0 <= i < |r.value| ==>
              IsHistoryEnvelope(r.value[i]) && r.value[i].server.identifier == serverId
    ensures r.Success? ==> forall i, j :: 0 <= i < j < |r.value| ==> r.value[i].timestamp >= r.value[j].timestamp
  {
    var q := QueryRows(table, serverId, limit);
    var r := BuildHistory(q, serverId, codec, failAfter);
    if r.Success? then
      forall i | 0 <= i < |r.value|
        ensures IsHistoryEnvelope(r.value[i]) && r.value[i].server.identifier == serverId
        ensures r.value[i].timestamp == q[i].timestamp
      {
        HistoricEnvelope(q[i], serverId, codec, r.value[i]);
      }
      r
    else r
  }

  /** An envelope rebuilt from a row is a history envelope of the row's
      timestamp, for the server it was rebuilt for. */
  lemma HistoricEnvelope(row: Row, serverId: string, codec: JsonCodec, m: WebsocketJsonMessage)
    requires CreateHistoricChatMessage(row.timestamp, serverId, row.serverName, row.messageId,
                                       row.messageJson, row.minecraftVersion, codec) == Success(m)
    ensures IsHistoryEnvelope(m) && m.server.identifier == serverId && m.timestamp == row.timestamp
  {
  }

  /** Save then load: a message saved into an empty store is read back as
      the one history envelope of its server, with the same uuid, timestamp,
      server, game version and component, and `history` set. */
  lemma {:induction false} SaveThenLoad(message: WebsocketJsonMessage, codec: JsonCodec, limit: int)
    requires SavablePayload(message.payload)
    requires message.payload.json.fields["component"].JObj?
    requires RoundTrips(codec, message.payload.json.fields["component"])
    requires limit != 0
    ensures var saved := SaveMessage([], message, codec);
            saved.Success?
            && GetMessages(saved.value, message.server.identifier, limit, codec, None)
               == Success([WebsocketJsonMessage(
                    message.timestamp, message.server, ChatMessage, message.minecraftVersion,
                    JsonPayload(ChatPayload(true, message.payload.json.fields["uuid"].str,
                                            message.payload.json.fields["component"])))])
  {
    var saved := SaveMessage([], message, codec).value;
    var row := saved[0];
    assert saved == [row];
    var id := message.server.identifier;
    var q := QueryRows(saved, id, limit);
    assert q == [row] by {
      assert RowsOfServer(saved, id) == [row] by {
        assert saved[1..] == [];
      }
      assert |q| == 1;
      assert q[0] in multiset(saved);
    }
    var component := message.payload.json.fields["component"];
    var expected := WebsocketJsonMessage(
      message.timestamp, message.server, ChatMessage, message.minecraftVersion,
      JsonPayload(ChatPayload(true, message.payload.json.fields["uuid"].str, component)));
    assert GsonObjectFromJson(codec, row.messageJson) == Success(component);
    assert message.server == ChatServerInfo(row.serverName, id);
    assert CreateHistoricChatMessage(row.timestamp, id, row.serverName, row.messageId,
                                     row.messageJson, row.minecraftVersion, codec) == Success(expected);
    assert BuildHistory(q[1..], id, codec, None) == Success([]) by {
      assert q[1..] == [];
    }
    assert [expected] + [] == [expected];
    assert BuildHistory([row], id, codec, None) == Success([expected]);
  }

  /** A saved row is found again: with no limit, the query for its server
      returns it, whatever else the table holds. */
  lemma SavedRowIsQueried(table: seq<Row>, message: WebsocketJsonMessage, codec: JsonCodec, limit: int)
    requires SaveMessage(table, message, codec).Success?
    requires limit < 0
    ensures var saved := SaveMessage(table, message, codec).value;
            saved[|table|] in QueryRows(saved, message.server.identifier, limit)
  {
    var saved := SaveMessage(table, message, codec).value;
    var row := saved[|table|];
    var q := QueryRows(saved, message.server.identifier, limit);
    assert row in multiset(saved);
    assert multiset(q)[row] == multiset(saved)[row];
  }

  /** A saved message newer than every stored message of its server comes
      back first, whatever the (non-zero) limit. */
  lemma NewestSavedRowComesFirst(table: seq<Row>, message: WebsocketJsonMessage, codec: JsonCodec, limit: int)
    requires SaveMessage(table, message, codec).Success?
    requires forall i :: 0 <= i < |table| && table[i].serverId == message.server.identifier ==>
               table[i].timestamp < message.timestamp
    requires limit != 0
    ensures var saved := SaveMessage(table, message, codec).value;
            var q := QueryRows(saved, message.server.identifier, limit);
            |q| > 0 && q[0] == saved[|table|]
  {
    var saved := SaveMessage(table, message, codec).value;
    assert saved == table + [saved[|table|]];
    NewestAppendedComesFirst(table, saved[|table|], limit);
  }

  /** A row appended after the rows of its server, and newer than all of
      them, is the first row the query returns. */
  lemma NewestAppendedComesFirst(table: seq<Row>, row: Row, limit: int)
    requires forall i :: 0 <= i < |table| && table[i].serverId == row.serverId ==> table[i].timestamp < row.timestamp
    requires limit != 0
    ensures var q := QueryRows(table + [row], row.serverId, limit);
            |q| > 0 && q[0] == row
  {
    var sorted := ServerRowsNewestFirst(table + [row], row.serverId);
    AppendedRowIsNewest(table, row);
    SortedUniqueNewestFirst(sorted, row);
    QueryIsPrefix(table + [row], row.serverId, limit);
  }

  /** Among the rows of a server, a row appended after older ones is
      strictly newer than every other row listed. */
  lemma AppendedRowIsNewest(table: seq<Row>, row: Row)
    requires forall i :: 0 <= i < |table| && table[i].serverId == row.serverId ==> table[i].timestamp < row.timestamp
    ensures var sorted := ServerRowsNewestFirst(table + [row], row.serverId);
            && row in multiset(sorted)
            && forall i :: 0 <= i < |sorted| && sorted[i] != row ==> sorted[i].timestamp < row.timestamp
  {
    var saved := table + [row];
    var sorted := ServerRowsNewestFirst(saved, row.serverId);
    assert multiset(saved) == multiset(table) + multiset{row};
    OthersOlder(table, row, sorted);
  }

  /** Rows of one server drawn from a table plus one appended row, other
      than that row, come from the table and so are older than it. */
  lemma OthersOlder(table: seq<Row>, row: Row, s: seq<Row>)
    requires forall i :: 0 <= i < |table| && table[i].serverId == row.serverId ==> table[i].timestamp < row.timestamp
    requires multiset(s) <= multiset(table) + multiset{row}
    requires forall i :: 0 <= i < |s| ==> s[i].serverId == row.serverId
    ensures forall i :: 0 <= i < |s| && s[i] != row ==> s[i].timestamp < row.timestamp
  {
    forall i | 0 <= i < |s| && s[i] != row
      ensures s[i].timestamp < row.timestamp
    {
      assert s[i] in multiset(s);
      assert s[i] in multiset(table);
      var j :| 0 <= j < |table| && table[j] == s[i];
    }
  }

  /** The query's rows are a prefix of the server's rows, newest first. */
  lemma QueryIsPrefix(table: seq<Row>, serverId: string, limit: int)
    ensures var q := QueryRows(table, serverId, limit);
            q == ServerRowsNewestFirst(table, serverId)[..|q|]
            && (limit != 0 && |ServerRowsNewestFirst(table, serverId)| > 0 ==> |q| > 0)
  {
    var sorted := ServerRowsNewestFirst(table, serverId);
    assert QueryRows(table, serverId, limit) == Limit(sorted, limit);
  }

  /** In a newest-first list, a row strictly newer than every other entry is
      the first entry. */
  lemma SortedUniqueNewestFirst(s: seq<Row>, row: Row)
    requires SortedByTimestampDesc(s)
    requires row in multiset(s)
    requires forall i :: 0 <= i < |s| && s[i] != row ==> s[i].timestamp < row.timestamp
    ensures |s| > 0 && s[0] == row
  {
    var k :| 0 <= k < |s| && s[k] == row;
    assert s[0].timestamp >= s[k].timestamp;
  }
}
