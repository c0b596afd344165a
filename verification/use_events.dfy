/** The dashboard's event list (hooks/useEvents.ts): the list and its loading
    flag, replaced by every fetch, and the change-feed handlers that decide when to
    fetch again. The store's answer to a fetch is an input. */
module UseEvents {
  import opened Types
  import EventStore

  /** An element of a changed row's `organizers` value, as the feed delivers it. */
  datatype OrganizerItem = NullItem | EntryItem(userId: Option<string>)

  /** The `organizers` value of a changed row: an array, null/absent, or some
      other JSON value. */
  datatype OrganizersValue = OrgArray(items: seq<OrganizerItem>) | OrgNull | OrgOther

  /** The columns of a changed row the handler looks at. */
  datatype ChangedRow = ChangedRow(creatorId: Option<string>, organizers: OrganizersValue)

  /** A change-feed message: the row after and the row before the change. */
  datatype Payload = Payload(newRow: Option<ChangedRow>, oldRow: Option<ChangedRow>)

  /** `o?.userId === uid` for one element. */
  predicate ItemIs(item: OrganizerItem, uid: string) {
    item.EntryItem? && item.userId == Some(uid)
  }

  /** `Array.isArray(organizers) && organizers.some(…)`; a null value reads as an
      empty array. */
  predicate HasOrganizerEntry(organizers: OrganizersValue, uid: string) {
    organizers.OrgArray? && exists k :: 0 <= k < |organizers.items| && ItemIs(organizers.items[k], uid)
  }

  /** The row the handler looks at: the new one, or the old one when there is no new one. */
  function RowOf(p: Payload): (row: Option<ChangedRow>)
    ensures row.None? <==> p.newRow.None? && p.oldRow.None?
    ensures p.newRow.Some? ==> row == p.newRow
  {
    if p.newRow.Some? then p.newRow else p.oldRow
  }

  /** Whether a change concerns the user: a row, created by the user or holding
      an organizer entry of the user, whatever its status. */
  predicate Relevant(p: Payload, uid: string) {
    var row := RowOf(p);
    row.Some? && (row.value.creatorId == Some(uid) || HasOrganizerEntry(row.value.organizers, uid))
  }

  /** A stored row as the feed delivers it. */
  function FeedRow(row: EventStore.DbEvent): (r: ChangedRow)
    ensures r.creatorId == Some(row.creatorId)
    ensures r.organizers.OrgArray? && |r.organizers.items| == |row.organizers|
    ensures forall k :: 0 <= k < |row.organizers| ==>
              r.organizers.items[k] == EntryItem(Some(row.organizers[k].userId))
  {
    ChangedRow(Some(row.creatorId),
               OrgArray(seq(|row.organizers|, k requires 0 <= k < |row.organizers| =>
                              EntryItem(Some(row.organizers[k].userId)))))
  }

  /** On a stored row, the handler fetches again exactly when the user created the
      event or has any organizer entry in it, pending or confirmed. */
  lemma RelevantIffEntry(row: EventStore.DbEvent, before: Option<ChangedRow>, uid: string)
    ensures Relevant(Payload(Some(FeedRow(row)), before), uid) <==>
              row.creatorId == uid || exists o :: o in row.organizers && o.userId == uid
  {
    var items := FeedRow(row).organizers.items;
    if exists o :: o in row.organizers && o.userId == uid {
      var o :| o in row.organizers && o.userId == uid;
      var k :| 0 <= k < |row.organizers| && row.organizers[k] == o;
      assert ItemIs(items[k], uid);
    }
    if HasOrganizerEntry(FeedRow(row).organizers, uid) {
      var k :| 0 <= k < |items| && ItemIs(items[k], uid);
      assert row.organizers[k] in row.organizers;
    }
  }

  /** Every change to an event the user's list shows triggers a fetch: the
      handler's test is wider than the listing's, which needs a confirmed entry. */
  lemma ListedRowsAreRelevant(row: EventStore.DbEvent, before: Option<ChangedRow>, uid: string)
    requires EventStore.ListedFor(row, uid)
    ensures Relevant(Payload(Some(FeedRow(row)), before), uid)
  {
    RelevantIffEntry(row, before, uid);
  }

  /** A pending entry alone makes a change relevant although the event is not listed. */
  lemma PendingEntryIsRelevant(row: EventStore.DbEvent, uid: string)
    requires row.creatorId != uid
    requires row.organizers == [Organizer(uid, "", "", Pending, [], None)]
    ensures Relevant(Payload(Some(FeedRow(row)), None), uid)
    ensures !EventStore.ListedFor(row, uid)
  {
    RelevantIffEntry(row, None, uid);
    assert row.organizers[0] in row.organizers;
  }

  /** A row whose `organizers` value is not an array is relevant only through its creator. */
  lemma NonArrayOnlyCreator(p: Payload, uid: string)
    requires RowOf(p).Some? && !RowOf(p).value.organizers.OrgArray?
    ensures Relevant(p, uid) <==> RowOf(p).value.creatorId == Some(uid)
  {
  }

  /** The states `subscribe` reports; the last two make the hook fetch again. */
  datatype ChannelStatus = Subscribed | Closed | ChannelError | TimedOut

  /** The hook's state (`useState` hooks and the current user). */
  class EventsHook {
    var userId: string
    var events: seq<Event>
    var loading: bool

    constructor (userId: string)
      ensures this.userId == userId && events == [] && loading
    {
      this.userId := userId;
      events := [];
      loading := true;
    }

    /** `fetchEvents`: the list is replaced by the user's events as the store
        lists them (none on a store error), and loading is over. */
    method FetchEvents(response: Option<seq<EventStore.DbEvent>>)
      modifies this`events, this`loading
      ensures events == EventStore.GetByUserId(response, userId)
      ensures !loading
    {
      events := EventStore.GetByUserId(response, userId);
      loading := false;
    }

    /** The change handler: fetches again when the change concerns the user,
        otherwise leaves the list as it is. */
    method OnChange(p: Payload, response: Option<seq<EventStore.DbEvent>>)
      modifies this`events, this`loading
      ensures Relevant(p, userId) ==> events == EventStore.GetByUserId(response, userId) && !loading
      ensures !Relevant(p, userId) ==> events == old(events) && loading == old(loading)
    {
      var row := if p.newRow.Some? then p.newRow else p.oldRow;
      if row.None? {
        return;
      }
      var isCreator := row.value.creatorId == Some(userId);
      var isOrganizer := HasOrganizerEntry(row.value.organizers, userId);
      if isCreator || isOrganizer {
        FetchEvents(response);
      }
    }

    /** The subscription's status callback: an error or a time-out fetches again. */
    method OnStatus(status: ChannelStatus, response: Option<seq<EventStore.DbEvent>>)
      modifies this`events, this`loading
      ensures status == ChannelError || status == TimedOut ==>
                events == EventStore.GetByUserId(response, userId) && !loading
      ensures status == Subscribed || status == Closed ==> events == old(events) && loading == old(loading)
    {
      if status == ChannelError || status == TimedOut {
        FetchEvents(response);
      }
    }
  }
}
