/** The owner's side of the organizer workflow (components/EventDetail.tsx:412-446,1285):
    approving, rejecting and re-scoping organizer entries. Each handler is a pure
    transform of the freshly fetched event, handed to the atomic update. */
module OrganizerWorkflow {
  import opened Types
  import opened Permissions

  /** Rejection: `organizers.filter(o => o.userId !== userId)`. */
  function RejectOrganizer(orgs: seq<Organizer>, userId: string): (r: seq<Organizer>)
    ensures forall o :: o in r <==> o in orgs && o.userId != userId
    ensures |r| <= |orgs|
  {
    if orgs == [] then []
    else if orgs[0].userId == userId then RejectOrganizer(orgs[1..], userId)
    else [orgs[0]] + RejectOrganizer(orgs[1..], userId)
  }

  /** Rejection keeps the survivors in their original order: it works piece by piece. */
  lemma {:induction false} RejectKeepsOrder(a: seq<Organizer>, b: seq<Organizer>, userId: string)
    ensures RejectOrganizer(a + b, userId) == RejectOrganizer(a, userId) + RejectOrganizer(b, userId)
  {
    if a != [] {
      assert (a + b)[1..] == a[1..] + b;
      RejectKeepsOrder(a[1..], b, userId);
    } else {
      assert a + b == b;
    }
  }

  /** Approval of the entries of `userId`: confirmed, `permissions ?? old`, and the given scope. */
  function ApproveEntry(o: Organizer, permissions: Option<seq<Permission>>, allowed: Option<seq<string>>): Organizer {
    o.(status := Confirmed, permissions := permissions.GetOr(o.permissions), allowedSubEventIds := allowed)
  }

  function ApproveOrganizer(orgs: seq<Organizer>, userId: string,
                            permissions: Option<seq<Permission>>, allowed: Option<seq<string>>): (r: seq<Organizer>)
    ensures |r| == |orgs|
    ensures forall i :: 0 <= i < |orgs| ==>
              r[i] == if orgs[i].userId == userId then ApproveEntry(orgs[i], permissions, allowed) else orgs[i]
  {
    seq(|orgs|, i requires 0 <= i < |orgs| =>
      if orgs[i].userId == userId then ApproveEntry(orgs[i], permissions, allowed) else orgs[i])
  }

  /** `handleApprove(userId, approve, permissions?, allowedSubEventIds?)` as the transform it passes. */
  function HandleApprove(e: Event, userId: string, approve: bool,
                         permissions: Option<seq<Permission>>, allowed: Option<seq<string>>): (r: Event)
    ensures r == e.(organizers := r.organizers)
    ensures !approve ==> forall o :: o in r.organizers <==> o in e.organizers && o.userId != userId
    ensures approve ==> |r.organizers| == |e.organizers|
  {
    if !approve then e.(organizers := RejectOrganizer(e.organizers, userId))
    else e.(organizers := ApproveOrganizer(e.organizers, userId, permissions, allowed))
  }

  /** The arguments the Approve button passes: the ticked tags, or `[access_organizer_chat]`
      when none is ticked; the ticked sequences, or no scope at all when none is ticked. */
  function ApproveButtonArgs(ticked: seq<Permission>, tickedSubs: seq<string>): (r: (Option<seq<Permission>>, Option<seq<string>>))
    ensures r.0.Some? && |r.0.value| > 0
    ensures r.0.value == if |ticked| > 0 then ticked else [AccessOrganizerChat]
    ensures r.1.None? <==> |tickedSubs| == 0
    ensures r.1.Some? ==> r.1.value == tickedSubs
  {
    (Some(if |ticked| > 0 then ticked else [AccessOrganizerChat]),
     if |tickedSubs| > 0 then Some(tickedSubs) else None)
  }

  /** After an approval, the first entry of the user is their first confirmed one, and
      it carries the granted tags and scope. */
  lemma {:induction false} ApprovedEntryIsCurrent(orgs: seq<Organizer>, userId: string, permissions: seq<Permission>,
                                                  allowed: Option<seq<string>>, k: nat)
    requires k < |orgs| && orgs[k].userId == userId
    requires forall j :: 0 <= j < k ==> orgs[j].userId != userId
    ensures var r := ApproveOrganizer(orgs, userId, Some(permissions), allowed);
            IsFirstConfirmed(r, userId, k) && r[k].permissions == permissions && r[k].allowedSubEventIds == allowed
  {
    var r := ApproveOrganizer(orgs, userId, Some(permissions), allowed);
    forall j | 0 <= j < k ensures !IsConfirmedFor(r[j], userId) {
      assert r[j] == orgs[j];
    }
    assert r[k] == ApproveEntry(orgs[k], Some(permissions), allowed);
  }

  /** After an approval from the button, the approved user (not the owner) holds exactly
      the granted permissions and the wildcard's reach. */
  lemma ApprovalGrants(e: Event, userId: string, ticked: seq<Permission>, tickedSubs: seq<string>, p: Permission)
    requires !IsOwner(e, userId)
    requires exists o :: o in e.organizers && o.userId == userId
    ensures var args := ApproveButtonArgs(ticked, tickedSubs);
            var e2 := HandleApprove(e, userId, true, args.0, args.1);
            HasPermission(e2, userId, p) <==> p in args.0.value || All in args.0.value
  {
    var args := ApproveButtonArgs(ticked, tickedSubs);
    var e2 := HandleApprove(e, userId, true, args.0, args.1);
    var orgs := e.organizers;
    var i :| 0 <= i < |orgs| && orgs[i].userId == userId;
    var k := FirstEntry(orgs, userId, i);
    ApprovedEntryIsCurrent(orgs, userId, args.0.value, args.1, k);
    HasPermissionIff(e2, userId, p);
    forall j | IsFirstConfirmed(e2.organizers, userId, j) ensures j == k {
      FirstConfirmedUnique(e2.organizers, userId, j, k);
    }
  }

  /** Every entry of the approved user ends up confirmed, and the button never stores
      an empty scope. */
  lemma ApprovalConfirmsAll(e: Event, userId: string, ticked: seq<Permission>, tickedSubs: seq<string>)
    ensures var args := ApproveButtonArgs(ticked, tickedSubs);
            var e2 := HandleApprove(e, userId, true, args.0, args.1);
            forall o :: o in e2.organizers && o.userId == userId ==>
              o.status == Confirmed && o.allowedSubEventIds != Some([])
  {
  }

  /** The first index holding an entry of `userId`, given that one exists at or before `i`. */
  function FirstEntry(orgs: seq<Organizer>, userId: string, i: nat): (k: nat)
    requires i < |orgs| && orgs[i].userId == userId
    ensures k <= i && orgs[k].userId == userId
    ensures forall j :: 0 <= j < k ==> orgs[j].userId != userId
  {
    if exists j :: 0 <= j < i && orgs[j].userId == userId then
      var j :| 0 <= j < i && orgs[j].userId == userId;
      FirstEntry(orgs, userId, j)
    else i
  }

  /** `handleSaveEditRights`: new tags and scope (no scope when the list is empty) on the
      entries of the edited user; status and every other entry unchanged. */
  function EditRights(e: Event, userId: string, permissions: seq<Permission>, subIds: seq<string>): (r: Event)
    ensures r == e.(organizers := r.organizers) && |r.organizers| == |e.organizers|
    ensures forall i :: 0 <= i < |e.organizers| ==>
              var o := e.organizers[i];
              r.organizers[i] == if o.userId == userId
                then o.(permissions := permissions,
                        allowedSubEventIds := if |subIds| > 0 then Some(subIds) else None)
                else o
  {
    e.(organizers := seq(|e.organizers|, i requires 0 <= i < |e.organizers| =>
      var o := e.organizers[i];
      if o.userId == userId
      then o.(permissions := permissions, allowedSubEventIds := if |subIds| > 0 then Some(subIds) else None)
      else o))
  }

  /** Status only moves forward: neither approval nor rights editing turns a confirmed
      entry back into a pending one, and editing never changes any status. */
  lemma ConfirmedIsFinal(e: Event, userId: string, permissions: Option<seq<Permission>>,
                         allowed: Option<seq<string>>, perms: seq<Permission>, subIds: seq<string>, i: int)
    requires 0 <= i < |e.organizers|
    ensures HandleApprove(e, userId, true, permissions, allowed).organizers[i].status
              == (if e.organizers[i].userId == userId then Confirmed else e.organizers[i].status)
    ensures EditRights(e, userId, perms, subIds).organizers[i].status == e.organizers[i].status
  {
  }

  /** Scenario: approving with `[manage_guests, access_organizer_chat]` scoped to `sub-1`
      lets the organizer manage guests in `sub-1` but not in `sub-2`. */
  lemma ScopedApprovalScenario(e: Event, userId: string)
    requires !IsOwner(e, userId)
    requires e.organizers == [Organizer(userId, "A", "B", Pending, [AccessOrganizerChat], None)]
    ensures var e2 := HandleApprove(e, userId, true, Some([ManageGuests, AccessOrganizerChat]), Some(["sub-1"]));
            CanManageGuestsHere(e2, userId, Some("sub-1")) && !CanManageGuestsHere(e2, userId, Some("sub-2"))
  {
    var e2 := HandleApprove(e, userId, true, Some([ManageGuests, AccessOrganizerChat]), Some(["sub-1"]));
    assert IsFirstConfirmed(e2.organizers, userId, 0);
    ScopedOrganizerGates(e2, userId, 0, Some("sub-1"));
    ScopedOrganizerGates(e2, userId, 0, Some("sub-2"));
  }
}
