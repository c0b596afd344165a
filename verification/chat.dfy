/** The chat engine of the event detail view (components/EventDetail.tsx:25-30,
    143-236, 479-490, 543-573): the message list of the open channel, the
    draft, and the names of the people typing. Fetches, realtime pushes,
    presence syncs and timer ticks arrive as method calls; what they carry
    is passed in. */
module Chat {
  import opened Types
  import opened Text
  import opened Permissions
  import opened Timeline
  import MessagesApi

  /** `selectedSubId || 'global'`. */
  function ChannelOf(selectedSubId: Option<string>): (c: string)
    ensures c != ""
    ensures Selection(selectedSubId).Some? ==> c == selectedSubId.value
    ensures Selection(selectedSubId).None? ==> c == "global"
  {
    var sel := Selection(selectedSubId);
    if sel.Some? then sel.value else "global"
  }

  function SenderName(user: User): string {
    user.firstName + " " + user.lastName
  }

  // ----- Merge by id, then sort (mergeMessagesFromServer and the poll) -----

  /** The position of the first entry with this id, or -1. */
  function IndexOfId(l: seq<ChatMessage>, id: string): (i: int)
    ensures -1 <= i < |l|
    ensures i >= 0 ==> l[i].id == id && forall k :: 0 <= k < i ==> l[k].id != id
    ensures i < 0 ==> forall k :: 0 <= k < |l| ==> l[k].id != id
  {
    if l == [] then -1
    else if l[0].id == id then 0
    else
      var j := IndexOfId(l[1..], id);
      if j < 0 then -1 else j + 1
  }

  /** `byId.set(m.id, m)` on a map kept in insertion order: a known id keeps its
      place and takes the new value, a new id goes last. */
  function Upsert(l: seq<ChatMessage>, m: ChatMessage): (r: seq<ChatMessage>)
    ensures |r| == |l| || r == l + [m]
    ensures m in r
  {
    var i := IndexOfId(l, m.id);
    if i < 0 then l + [m]
    else
      var r := l[i := m];
      assert r[i] == m;
      r
  }

  /** One upsert adds the id, keeps every entry of another id, and, on a list
      with distinct ids, keeps them distinct and brings in nothing but `m`. */
  lemma UpsertSpec(l: seq<ChatMessage>, m: ChatMessage)
    ensures Ids(Upsert(l, m)) == Ids(l) + {m.id}
    ensures forall x :: x in l && x.id != m.id ==> x in Upsert(l, m)
    ensures UniqueIds(l) ==> UniqueIds(Upsert(l, m))
    ensures UniqueIds(l) ==> forall x :: x in Upsert(l, m) ==> x == m || (x in l && x.id != m.id)
  {
    var i := IndexOfId(l, m.id);
    var r := Upsert(l, m);
    if i < 0 {
      IdsSnoc(l, m);
    } else {
      assert r == l[i := m];
      forall id | id in Ids(l) ensures id in Ids(r) {
        var k :| 0 <= k < |l| && l[k].id == id;
        assert r[k].id == id;
      }
      forall id | id in Ids(r) ensures id in Ids(l) {
        var k :| 0 <= k < |r| && r[k].id == id;
        assert l[k].id == id;
      }
      forall x | x in l && x.id != m.id ensures x in r {
        var k :| 0 <= k < |l| && l[k] == x;
        assert r[k] == x;
      }
      if UniqueIds(l) {
        forall x | x in r ensures x == m || (x in l && x.id != m.id) {
          var k :| 0 <= k < |r| && r[k] == x;
          if k != i {
            assert l[k] == x && l[k].id != l[i].id;
          }
        }
      }
    }
  }

  /** `ms.forEach(m => byId.set(m.id, m))`, starting from `l`. */
  function UpsertAll(l: seq<ChatMessage>, ms: seq<ChatMessage>): seq<ChatMessage> {
    if ms == [] then l else Upsert(UpsertAll(l, ms[..|ms| - 1]), ms[|ms| - 1])
  }

  /** The merge of a fetched batch into the current list: one entry per id of
      either, the fetched version winning, then sorted by time. */
  function Merge(prev: seq<ChatMessage>, fetched: seq<ChatMessage>, time: TimeOf): seq<ChatMessage> {
    SortByTime(UpsertAll(UpsertAll([], prev), fetched), time)
  }

  /** An upsert fold holds the ids of both lists, each once. */
  lemma {:induction false} UpsertAllIds(l: seq<ChatMessage>, ms: seq<ChatMessage>)
    requires UniqueIds(l)
    ensures UniqueIds(UpsertAll(l, ms))
    ensures Ids(UpsertAll(l, ms)) == Ids(l) + Ids(ms)
  {
    if ms != [] {
      var init := ms[..|ms| - 1];
      var last := ms[|ms| - 1];
      assert ms == init + [last];
      UpsertAllIds(l, init);
      IdsSnoc(init, last);
      UpsertSpec(UpsertAll(l, init), last);
    }
  }

  /** Every entry of an upsert fold comes from the batch, or is an old entry
      whose id the batch lacks. */
  lemma {:induction false} UpsertAllOrigin(l: seq<ChatMessage>, ms: seq<ChatMessage>)
    requires UniqueIds(l)
    ensures forall x :: x in UpsertAll(l, ms) ==> x in ms || (x in l && x.id !in Ids(ms))
  {
    if ms != [] {
      var init := ms[..|ms| - 1];
      var last := ms[|ms| - 1];
      assert ms == init + [last];
      UpsertAllOrigin(l, init);
      UpsertAllIds(l, init);
      IdsSnoc(init, last);
      var before := UpsertAll(l, init);
      UpsertSpec(before, last);
      forall x | x in UpsertAll(l, ms) ensures x in ms || (x in l && x.id !in Ids(ms)) {
        if x != last {
          assert x in before && x.id != last.id;
          if x in init {
            assert x in ms;
          }
        }
      }
    }
  }

  /** An old entry whose id the batch lacks survives the fold. */
  lemma {:induction false} UpsertAllKeepsOld(l: seq<ChatMessage>, ms: seq<ChatMessage>)
    ensures forall x :: x in l && x.id !in Ids(ms) ==> x in UpsertAll(l, ms)
  {
    if ms != [] {
      var init := ms[..|ms| - 1];
      var last := ms[|ms| - 1];
      assert ms == init + [last];
      UpsertAllKeepsOld(l, init);
      IdsSnoc(init, last);
      UpsertSpec(UpsertAll(l, init), last);
    }
  }

  /** A batch with distinct ids ends up whole in the fold. */
  lemma {:induction false} UpsertAllHasBatch(l: seq<ChatMessage>, ms: seq<ChatMessage>)
    requires UniqueIds(ms)
    ensures forall x :: x in ms ==> x in UpsertAll(l, ms)
  {
    if ms != [] {
      var init := ms[..|ms| - 1];
      var last := ms[|ms| - 1];
      assert ms == init + [last];
      assert UniqueIds(init);
      UpsertAllHasBatch(l, init);
      var before := UpsertAll(l, init);
      UpsertSpec(before, last);
      forall x | x in ms ensures x in UpsertAll(l, ms) {
        if x != last {
          var k :| 0 <= k < |ms| && ms[k] == x;
          assert k < |init| && init[k] == x;
          assert x.id != last.id;
        }
      }
    }
  }

  /** Folding a list with distinct ids into nothing rebuilds it. */
  lemma {:induction false} UpsertAllFresh(l: seq<ChatMessage>)
    requires UniqueIds(l)
    ensures UpsertAll([], l) == l
  {
    if l != [] {
      var init := l[..|l| - 1];
      var last := l[|l| - 1];
      assert UniqueIds(init);
      UpsertAllFresh(init);
      assert forall k :: 0 <= k < |init| ==> init[k].id != last.id by {
        forall k | 0 <= k < |init| ensures init[k].id != last.id {
          assert l[k] == init[k];
        }
      }
      assert IndexOfId(init, last.id) < 0;
      assert init + [last] == l;
    }
  }

  /** Upserting an entry that is already in a list with distinct ids changes nothing. */
  lemma UpsertPresent(l: seq<ChatMessage>, m: ChatMessage)
    requires UniqueIds(l) && m in l
    ensures Upsert(l, m) == l
  {
    var i := IndexOfId(l, m.id);
    var k :| 0 <= k < |l| && l[k] == m;
    assert i == k;
    assert l[i := m] == l;
  }

  /** Folding in entries that are already there changes nothing. */
  lemma {:induction false} UpsertAllPresent(l: seq<ChatMessage>, ms: seq<ChatMessage>)
    requires UniqueIds(l) && forall x :: x in ms ==> x in l
    ensures UpsertAll(l, ms) == l
  {
    if ms != [] {
      var init := ms[..|ms| - 1];
      var last := ms[|ms| - 1];
      assert forall x :: x in init ==> x in ms;
      UpsertAllPresent(l, init);
      assert last in ms;
      UpsertPresent(l, last);
    }
  }

  /** The merge of the poll and of a reconnection: exactly one entry per id of
      the current list or the batch, the batch's version winning, in time order. */
  lemma MergeSpec(prev: seq<ChatMessage>, fetched: seq<ChatMessage>, time: TimeOf)
    ensures var r := Merge(prev, fetched, time);
      && UniqueIds(r)
      && SortedByTime(r, time)
      && Ids(r) == Ids(prev) + Ids(fetched)
      && (forall m :: m in r ==> m in fetched || (m in prev && m.id !in Ids(fetched)))
      && (UniqueIds(fetched) ==> forall m :: m in fetched ==> m in r)
      && (UniqueIds(prev) ==> forall m :: m in prev && m.id !in Ids(fetched) ==> m in r)
  {
    var empty: seq<ChatMessage> := [];
    var start := UpsertAll(empty, prev);
    assert UniqueIds(empty);
    UpsertAllIds(empty, prev);
    UpsertAllOrigin(empty, prev);
    UpsertAllIds(start, fetched);
    UpsertAllOrigin(start, fetched);
    UpsertAllKeepsOld(start, fetched);
    if UniqueIds(fetched) {
      UpsertAllHasBatch(start, fetched);
    }
    var merged := UpsertAll(start, fetched);
    SortSorted(merged, time);
    SortKeepsIds(merged, time);
    SortKeepsUniqueIds(merged, time);
    if UniqueIds(prev) {
      UpsertAllFresh(prev);
    }
  }

  /** Merging the same batch a second time changes nothing. */
  lemma MergeIdempotent(prev: seq<ChatMessage>, fetched: seq<ChatMessage>, time: TimeOf)
    requires UniqueIds(fetched)
    ensures Merge(Merge(prev, fetched, time), fetched, time) == Merge(prev, fetched, time)
  {
    var r := Merge(prev, fetched, time);
    MergeSpec(prev, fetched, time);
    UpsertAllFresh(r);
    UpsertAllPresent(r, fetched);
    SortOfSorted(r, time);
  }

  // ----- Realtime append, optimistic send and rollback -----

  /** `prev.some(m => m.id === x.id) ? prev : [...prev, x]`. */
  function AppendIfAbsent(l: seq<ChatMessage>, x: ChatMessage): (r: seq<ChatMessage>)
    ensures x.id in Ids(l) ==> r == l
    ensures x.id !in Ids(l) ==> r == l + [x]
  {
    if IndexOfId(l, x.id) >= 0 then l else l + [x]
  }

  /** Appending keeps ids distinct and adds the id. */
  lemma AppendKeepsUniqueIds(l: seq<ChatMessage>, x: ChatMessage)
    requires UniqueIds(l)
    ensures UniqueIds(AppendIfAbsent(l, x))
    ensures Ids(AppendIfAbsent(l, x)) == Ids(l) + {x.id}
  {
    IdsSnoc(l, x);
  }

  /** `prev.filter(m => m.id !== id)`. */
  function RemoveId(l: seq<ChatMessage>, id: string): (r: seq<ChatMessage>)
    ensures forall x :: x in r <==> x in l && x.id != id
    ensures |r| <= |l|
  {
    if l == [] then []
    else
      var init := l[..|l| - 1];
      var last := l[|l| - 1];
      assert l == init + [last];
      RemoveId(init, id) + (if last.id == id then [] else [last])
  }

  /** Filtering out an id nobody has keeps the list as it is. */
  lemma {:induction false} RemoveAbsentId(l: seq<ChatMessage>, id: string)
    requires id !in Ids(l)
    ensures RemoveId(l, id) == l
  {
    if l != [] {
      var init := l[..|l| - 1];
      IdsSnoc(init, l[|l| - 1]);
      assert init + [l[|l| - 1]] == l;
      RemoveAbsentId(init, id);
    }
  }

  /** A failed save undoes the optimistic append of a message with a fresh id. */
  lemma RollbackUndoesSend(l: seq<ChatMessage>, msg: ChatMessage)
    requires msg.id !in Ids(l)
    ensures RemoveId(AppendIfAbsent(l, msg), msg.id) == l
  {
    var appended := l + [msg];
    assert appended[..|appended| - 1] == l;
    RemoveAbsentId(l, msg.id);
  }

  // ----- Typing names (the presence sync) -----

  /** One presence entry as a client tracks it; every field may be missing. */
  datatype Presence = Presence(userId: Option<string>, userName: Option<string>, typing: Option<bool>)

  /** `p.typing === true && p.userId !== user.id && p.userName`. */
  predicate TypingOther(p: Presence, selfId: string) {
    p.typing == Some(true) && p.userId != Some(selfId) && p.userName.Some? && p.userName.value != ""
  }

  function Flatten(groups: seq<seq<Presence>>): (r: seq<Presence>)
    ensures forall p :: p in r <==> exists g :: g in groups && p in g
  {
    if groups == [] then []
    else
      assert forall g :: g in groups <==> g == groups[0] || g in groups[1..];
      groups[0] + Flatten(groups[1..])
  }

  /** The names of the typing entries, in order, repeats included. */
  function TypingCandidates(ps: seq<Presence>, selfId: string): (r: seq<string>)
    ensures forall n :: n in r <==> exists p :: p in ps && TypingOther(p, selfId) && p.userName == Some(n)
  {
    if ps == [] then []
    else
      assert forall p :: p in ps <==> p == ps[0] || p in ps[1..];
      var rest := TypingCandidates(ps[1..], selfId);
      if TypingOther(ps[0], selfId) then [ps[0].userName.value] + rest else rest
  }

  /** `[...new Set(names)]`: first occurrences, in order. */
  function Dedupe(names: seq<string>): (r: seq<string>)
    ensures NoDuplicates(r)
    ensures forall n :: n in r <==> n in names
  {
    if names == [] then []
    else
      var init := names[..|names| - 1];
      var last := names[|names| - 1];
      assert names == init + [last];
      var d := Dedupe(init);
      if last in d then d else d + [last]
  }

  /** The names shown as typing: every other user whose presence says typing
      and carries a name, each name once. */
  function TypingNames(groups: seq<seq<Presence>>, selfId: string): (r: seq<string>)
    ensures NoDuplicates(r)
    ensures forall n :: n in r <==> exists p :: p in Flatten(groups) && TypingOther(p, selfId) && p.userName == Some(n)
  {
    Dedupe(TypingCandidates(Flatten(groups), selfId))
  }

  /** The user's own presence never shows as typing. */
  lemma OwnNameHidden(groups: seq<seq<Presence>>, self: User, n: string)
    requires n in TypingNames(groups, self.id)
    ensures exists p :: p in Flatten(groups) && p.userId != Some(self.id) && p.userName == Some(n) && n != ""
  {
  }

  // ----- The session -----

  /** The chat state of one open event detail view. `connected` is
      `chatChannelRef.current !== null`, `timerArmed` is
      `typingTimeoutRef.current !== null`, `typingPublished` is the `typing`
      flag this client last tracked on the channel, and `mounted` is the
      effect's `isMounted`. */
  class ChatSession {
    const user: User
    var selected: Option<string>
    var messages: seq<ChatMessage>
    var draft: string
    var typingNames: seq<string>
    var connected: bool
    var timerArmed: bool
    var typingPublished: bool
    var mounted: bool

    /** The timer only runs on an open channel, and a closed channel publishes nothing. */
    predicate Valid()
      reads this
    {
      (timerArmed ==> connected) && (!connected ==> !typingPublished)
    }

    function Channel(): (c: string)
      reads this
      ensures c != ""
    {
      ChannelOf(selected)
    }

    constructor (user: User, selectedSubId: Option<string>)
      ensures Valid()
      ensures this.user == user && selected == selectedSubId
      ensures messages == [] && draft == "" && typingNames == []
      ensures !connected && !timerArmed && !typingPublished && mounted
    {
      this.user := user;
      selected := selectedSubId;
      messages := [];
      draft := "";
      typingNames := [];
      connected := false;
      timerArmed := false;
      typingPublished := false;
      mounted := true;
    }

    /** `loadMessages`: the fetched list replaces the current one while the view is mounted. */
    method Load(fetched: seq<ChatMessage>)
      modifies this
      ensures messages == (if old(mounted) then fetched else old(messages))
      ensures selected == old(selected) && draft == old(draft) && typingNames == old(typingNames)
      ensures connected == old(connected) && timerArmed == old(timerArmed)
      ensures typingPublished == old(typingPublished) && mounted == old(mounted)
    {
      if mounted {
        messages := fetched;
      }
    }

    /** The fallback poll: merges the fetched batch by id, then sorts by time. */
    method Poll(fetched: seq<ChatMessage>, time: TimeOf)
      modifies this
      ensures messages == Merge(old(messages), fetched, time)
      ensures selected == old(selected) && draft == old(draft) && typingNames == old(typingNames)
      ensures connected == old(connected) && timerArmed == old(timerArmed)
      ensures typingPublished == old(typingPublished) && mounted == old(mounted)
    {
      var byId := UpsertAll([], messages);
      for i := 0 to |fetched|
        invariant byId == UpsertAll(UpsertAll([], messages), fetched[..i])
      {
        assert fetched[..i + 1][..i] == fetched[..i];
        byId := Upsert(byId, fetched[i]);
      }
      assert fetched[..|fetched|] == fetched;
      messages := SortByTime(byId, time);
    }

    /** `mergeMessagesFromServer`, run when the subscription reports an error
        or a time-out: the same merge, skipped once the view is gone. */
    method Resync(fetched: seq<ChatMessage>, time: TimeOf)
      modifies this
      ensures messages == (if old(mounted) then Merge(old(messages), fetched, time) else old(messages))
      ensures selected == old(selected) && draft == old(draft) && typingNames == old(typingNames)
      ensures connected == old(connected) && timerArmed == old(timerArmed)
      ensures typingPublished == old(typingPublished) && mounted == old(mounted)
    {
      if mounted {
        Poll(fetched, time);
      }
    }

    /** An inserted row pushed by the realtime feed: a row of another channel,
        or an id already listed, is ignored; otherwise the message goes last,
        without sorting. */
    method Realtime(row: Option<MessagesApi.MessageRow>)
      modifies this
      ensures row.None? || row.value.channelId != Channel() ==> messages == old(messages)
      ensures row.Some? && row.value.channelId == Channel() ==>
        messages == AppendIfAbsent(old(messages), MessagesApi.FromDb(row.value))
      ensures selected == old(selected) && draft == old(draft) && typingNames == old(typingNames)
      ensures connected == old(connected) && timerArmed == old(timerArmed)
      ensures typingPublished == old(typingPublished) && mounted == old(mounted)
    {
      if row.None? || row.value.channelId != ChannelOf(selected) {
        return;
      }
      var incoming := MessagesApi.FromDb(row.value);
      messages := AppendIfAbsent(messages, incoming);
    }

    /** The presence sync: the typing names are recomputed from the channel's
        presence state while the view is mounted. */
    method PresenceSync(groups: seq<seq<Presence>>)
      modifies this
      ensures typingNames == (if old(mounted) then TypingNames(groups, user.id) else old(typingNames))
      ensures selected == old(selected) && draft == old(draft) && messages == old(messages)
      ensures connected == old(connected) && timerArmed == old(timerArmed)
      ensures typingPublished == old(typingPublished) && mounted == old(mounted)
    {
      if mounted {
        typingNames := TypingNames(groups, user.id);
      }
    }

    /** `SUBSCRIBED`: the channel becomes the current one and this client tracks `typing: false`. */
    method Subscribed()
      requires Valid()
      modifies this
      ensures Valid()
      ensures connected && !typingPublished
      ensures selected == old(selected) && draft == old(draft) && messages == old(messages)
      ensures typingNames == old(typingNames) && timerArmed == old(timerArmed) && mounted == old(mounted)
    {
      connected := true;
      typingPublished := false;
    }

    /** A keystroke in the chat box: the draft takes the text, then, for a user
        with chat access on an open channel, `typing: true` is tracked and the
        3-second timer is (re)started. */
    method Type(e: Event, text: string)
      requires Valid()
      modifies this
      ensures Valid()
      ensures draft == text
      ensures CanChat(e, user.id) && old(connected) ==> typingPublished && timerArmed
      ensures !(CanChat(e, user.id) && old(connected)) ==>
        typingPublished == old(typingPublished) && timerArmed == old(timerArmed)
      ensures selected == old(selected) && messages == old(messages) && typingNames == old(typingNames)
      ensures connected == old(connected) && mounted == old(mounted)
    {
      draft := text;
      if !CanChat(e, user.id) {
        return;
      }
      if !connected {
        return;
      }
      typingPublished := true;
      timerArmed := true;
    }

    /** The typing timer fires: it is cleared and `typing: false` is tracked on the current channel. */
    method TypingTimeout()
      requires Valid()
      modifies this
      ensures Valid()
      ensures !timerArmed
      ensures old(timerArmed) ==> !typingPublished
      ensures !old(timerArmed) ==> typingPublished == old(typingPublished)
      ensures selected == old(selected) && draft == old(draft) && messages == old(messages)
      ensures typingNames == old(typingNames) && connected == old(connected) && mounted == old(mounted)
    {
      if timerArmed {
        timerArmed := false;
        if connected {
          typingPublished := false;
        }
      }
    }

    /** The message `handleSendMessage` builds from the trimmed draft. */
    function Outgoing(e: Event, id: string, now: string, text: string): (m: ChatMessage)
      reads this
      ensures m.channelId == Channel() && m.senderId == user.id && m.text == text
      ensures m.role == OwnerRole <==> IsOwner(e, user.id)
    {
      ChatMessage(id, e.id, ChannelOf(selected), user.id, SenderName(user), text, now,
                  if e.creatorId == user.id then OwnerRole else OrganizerRole)
    }

    /** Optimistic send. Nothing happens unless the user may send here and the
        trimmed draft is not empty; otherwise the typing timer is cleared,
        `typing: false` is tracked, the draft is emptied and the message,
        with the fresh id `id` and the time stamp `now`, is appended. */
    method Send(e: Event, id: string, now: string) returns (sent: Option<ChatMessage>)
      requires Valid()
      modifies this
      ensures Valid()
      ensures !CanSendChat(e, user.id, old(selected)) || Trim(old(draft)) == "" ==>
        sent.None? && draft == old(draft) && messages == old(messages)
        && timerArmed == old(timerArmed) && typingPublished == old(typingPublished)
      ensures CanSendChat(e, user.id, old(selected)) && Trim(old(draft)) != "" ==>
        sent == Some(Outgoing(e, id, now, Trim(old(draft))))
        && draft == "" && messages == AppendIfAbsent(old(messages), sent.value)
        && !timerArmed && !typingPublished
      ensures selected == old(selected) && typingNames == old(typingNames)
      ensures connected == old(connected) && mounted == old(mounted)
    {
      sent := Compose(e, id, now);
      if sent.Some? {
        Append(sent.value);
      }
    }

    /** The message a send would post: none when the user may not send here or
        the trimmed draft is empty. */
    method Compose(e: Event, id: string, now: string) returns (msg: Option<ChatMessage>)
      ensures msg.Some? <==> CanSendChat(e, user.id, selected) && Trim(draft) != ""
      ensures msg.Some? ==> msg.value == Outgoing(e, id, now, Trim(draft))
    {
      if !CanSendChat(e, user.id, selected) {
        return None;
      }
      var text := Trim(draft);
      if text == "" {
        return None;
      }
      msg := Some(Outgoing(e, id, now, text));
    }

    /** The optimistic part of a send: the timer is cleared, `typing: false`
        is tracked, the draft is emptied and the message appended. */
    method Append(msg: ChatMessage)
      requires Valid()
      modifies this
      ensures Valid()
      ensures draft == "" && messages == AppendIfAbsent(old(messages), msg)
      ensures !timerArmed && !typingPublished
      ensures selected == old(selected) && typingNames == old(typingNames)
      ensures connected == old(connected) && mounted == old(mounted)
    {
      timerArmed := false;
      typingPublished := false;
      draft := "";
      messages := AppendIfAbsent(messages, msg);
    }

    /** The save of `msg` failed: exactly that id leaves the list and its text
        goes back into the draft. */
    method SaveFailed(msg: ChatMessage)
      modifies this
      ensures messages == RemoveId(old(messages), msg.id) && draft == msg.text
      ensures selected == old(selected) && typingNames == old(typingNames)
      ensures connected == old(connected) && timerArmed == old(timerArmed)
      ensures typingPublished == old(typingPublished) && mounted == old(mounted)
    {
      messages := RemoveId(messages, msg.id);
      draft := msg.text;
    }

    /** The effect's cleanup when the view closes: the channel and the timer are
        dropped and the typing names emptied; later fetch answers are ignored. */
    method Unmount()
      modifies this
      ensures Valid()
      ensures !mounted && !connected && !timerArmed && !typingPublished && typingNames == []
      ensures selected == old(selected) && draft == old(draft) && messages == old(messages)
    {
      mounted := false;
      connected := false;
      timerArmed := false;
      typingPublished := false;
      typingNames := [];
    }

    /** Selecting another sequence re-runs the effect: the old channel is
        cleaned up and a new one opened; the list stays until the next load. */
    method SwitchChannel(selectedSubId: Option<string>)
      modifies this
      ensures Valid()
      ensures selected == selectedSubId && mounted
      ensures !connected && !timerArmed && !typingPublished && typingNames == []
      ensures draft == old(draft) && messages == old(messages)
    {
      connected := false;
      timerArmed := false;
      typingPublished := false;
      typingNames := [];
      selected := selectedSubId;
      mounted := true;
    }
  }

  /** A send whose save fails leaves the list as it was before the send,
      with the trimmed text back in the draft. */
  method SendThenFail(session: ChatSession, e: Event, id: string, now: string)
    requires session.Valid() && id !in Ids(session.messages)
    modifies session
    ensures session.messages == old(session.messages)
    ensures CanSendChat(e, session.user.id, old(session.selected)) && Trim(old(session.draft)) != "" ==>
      session.draft == Trim(old(session.draft))
  {
    var sent := session.Send(e, id, now);
    if sent.Some? {
      RollbackUndoesSend(old(session.messages), sent.value);
      session.SaveFailed(sent.value);
    }
  }
}
