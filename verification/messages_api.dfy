/** The `chat_messages` table as the application reads and writes it
    (api/messages.ts). The store's answers are inputs: a query result is
    `None` when the store reports an error, and an insert either fails with
    the store's message or appends the row. */
module MessagesApi {
  import opened Types
  import opened Timeline

  /** A stored row; the column `created_at` holds the message's time stamp. */
  datatype MessageRow = MessageRow(
    id: string,
    eventId: string,
    channelId: string,
    senderId: string,
    senderName: string,
    text: string,
    role: Role,
    createdAt: string)

  function FromDb(row: MessageRow): ChatMessage {
    ChatMessage(row.id, row.eventId, row.channelId, row.senderId, row.senderName,
                row.text, row.createdAt, row.role)
  }

  /** Writing a message and reading it back gives the same message. */
  function ToDb(msg: ChatMessage): (row: MessageRow)
    ensures FromDb(row) == msg
  {
    MessageRow(msg.id, msg.eventId, msg.channelId, msg.senderId, msg.senderName,
               msg.text, msg.role, msg.timestamp)
  }

  /** Reading a row and writing it back gives the same row: the mapping only renames fields. */
  lemma ToFromDb(row: MessageRow)
    ensures ToDb(FromDb(row)) == row
    ensures FromDb(row).timestamp == row.createdAt
  {
  }

  predicate InChannel(row: MessageRow, eventId: string, channelId: string) {
    row.eventId == eventId && row.channelId == channelId
  }

  /** The rows of one channel of one event, in store order. */
  function ChannelRows(rows: seq<MessageRow>, eventId: string, channelId: string): (r: seq<MessageRow>)
    ensures forall row :: row in r <==> row in rows && InChannel(row, eventId, channelId)
    ensures |r| <= |rows|
  {
    if rows == [] then []
    else
      var rest := ChannelRows(rows[1..], eventId, channelId);
      assert forall row :: row in rows <==> row == rows[0] || row in rows[1..];
      if InChannel(rows[0], eventId, channelId) then [rows[0]] + rest else rest
  }

  function MapFromDb(rows: seq<MessageRow>): (r: seq<ChatMessage>)
    ensures |r| == |rows| && forall i :: 0 <= i < |rows| ==> r[i] == FromDb(rows[i])
  {
    seq(|rows|, i requires 0 <= i < |rows| => FromDb(rows[i]))
  }

  /** `get(eventId, channelId)`: the channel's rows ordered by `created_at`, or
      nothing when the store reports an error (`rows` is `None`). `time` reads a
      time stamp as milliseconds. */
  function Get(rows: Option<seq<MessageRow>>, eventId: string, channelId: string, time: TimeOf): (r: seq<ChatMessage>)
    ensures rows.None? ==> r == []
    ensures rows.Some? ==> |r| == |ChannelRows(rows.value, eventId, channelId)|
  {
    if rows.None? then []
    else SortByTime(MapFromDb(ChannelRows(rows.value, eventId, channelId)), time)
  }

  /** What `get` returns is sorted by time, belongs to the asked channel, and
      holds exactly the messages of the channel's rows. */
  lemma GetSpec(rows: seq<MessageRow>, eventId: string, channelId: string, time: TimeOf)
    ensures var r := Get(Some(rows), eventId, channelId, time);
      && SortedByTime(r, time)
      && (forall m :: m in r ==> m.eventId == eventId && m.channelId == channelId)
      && (forall m :: m in r <==> ToDb(m) in rows && InChannel(ToDb(m), eventId, channelId))
  {
    var kept := ChannelRows(rows, eventId, channelId);
    var mapped := MapFromDb(kept);
    SortSorted(mapped, time);
    SortKeepsIds(mapped, time);
    forall m ensures m in mapped <==> ToDb(m) in kept {
      if m in mapped {
        var i :| 0 <= i < |mapped| && mapped[i] == m;
        ToFromDb(kept[i]);
      }
      if ToDb(m) in kept {
        var i :| 0 <= i < |kept| && kept[i] == ToDb(m);
        assert mapped[i] == m;
      }
    }
  }

  /** `save(msg)`: the insert either fails, and the error's message is thrown,
      or adds the message's row to the table. */
  function Save(rows: seq<MessageRow>, msg: ChatMessage, insertError: Option<string>): (r: Result<seq<MessageRow>>)
    ensures insertError.Some? ==> r == Err(insertError.value)
    ensures insertError.None? ==> r.Ok? && |r.value| == |rows| + 1 && r.value[..|rows|] == rows
  {
    if insertError.Some? then Err(insertError.value) else Ok(rows + [ToDb(msg)])
  }

  /** A saved message is among the messages a later `get` of its channel returns. */
  lemma SavedMessageIsFetched(rows: seq<MessageRow>, msg: ChatMessage, time: TimeOf)
    ensures var saved := Save(rows, msg, None);
      saved.Ok? && msg in Get(Some(saved.value), msg.eventId, msg.channelId, time)
  {
    var stored := rows + [ToDb(msg)];
    assert ToDb(msg) in stored;
    GetSpec(stored, msg.eventId, msg.channelId, time);
  }
}
