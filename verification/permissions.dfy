/** The permission gates of the event detail view (components/EventDetail.tsx:118-136)
    and the two checkbox toggles of the rights dialogs (:448-464). All of them are
    pure predicates over an event snapshot, the viewing user and the selected sequence. */
module Permissions {
  import opened Types

  /** `selectedSubId` as the view tests it (`!selectedSubId`): the empty string counts as no selection. */
  function Selection(selectedSubId: Option<string>): (r: Option<string>)
    ensures r.Some? <==> selectedSubId.Some? && selectedSubId.value != ""
    ensures r.Some? ==> r == selectedSubId
  {
    if selectedSubId.Some? && selectedSubId.value != "" then selectedSubId else None
  }

  predicate IsOwner(e: Event, userId: string) {
    e.creatorId == userId
  }

  predicate IsConfirmedFor(o: Organizer, userId: string) {
    o.status == Confirmed && o.userId == userId
  }

  /** Index `i` holds the first confirmed entry of the user. */
  predicate IsFirstConfirmed(orgs: seq<Organizer>, userId: string, i: int) {
    0 <= i < |orgs| && IsConfirmedFor(orgs[i], userId)
    && forall j :: 0 <= j < i ==> !IsConfirmedFor(orgs[j], userId)
  }

  /** `activeOrganizers.find(o => o.userId === user.id)`: the first confirmed entry of the user. */
  function CurrentOrganizer(orgs: seq<Organizer>, userId: string): (r: Option<Organizer>)
    ensures r.Some? ==> exists i :: IsFirstConfirmed(orgs, userId, i) && orgs[i] == r.value
    ensures r.None? ==> forall i :: 0 <= i < |orgs| ==> !IsConfirmedFor(orgs[i], userId)
  {
    if orgs == [] then None
    else if IsConfirmedFor(orgs[0], userId) then
      assert IsFirstConfirmed(orgs, userId, 0);
      Some(orgs[0])
    else
      var r := CurrentOrganizer(orgs[1..], userId);
      if r.Some? then
        var k :| IsFirstConfirmed(orgs[1..], userId, k) && orgs[1..][k] == r.value;
        assert IsFirstConfirmed(orgs, userId, k + 1);
        r
      else r
  }

  lemma FirstConfirmedUnique(orgs: seq<Organizer>, userId: string, i: int, j: int)
    requires IsFirstConfirmed(orgs, userId, i) && IsFirstConfirmed(orgs, userId, j)
    ensures i == j
  {
  }

  /** `currentOrganizer?.permissions || []`. */
  function EffectivePermissions(e: Event, userId: string): seq<Permission> {
    match CurrentOrganizer(e.organizers, userId)
    case Some(o) => o.permissions
    case None => []
  }

  predicate HasPermission(e: Event, userId: string, p: Permission) {
    var perms := EffectivePermissions(e, userId);
    IsOwner(e, userId) || p in perms || All in perms
  }

  predicate CanManageProgram(e: Event, userId: string) { HasPermission(e, userId, ManageSubevents) }
  predicate CanManageGuests(e: Event, userId: string) { HasPermission(e, userId, ManageGuests) }
  predicate CanChat(e: Event, userId: string) { HasPermission(e, userId, AccessOrganizerChat) }
  predicate CanEditEvent(e: Event, userId: string) { HasPermission(e, userId, EditDetails) }
  predicate CanViewBudget(e: Event, userId: string) { HasPermission(e, userId, ViewBudget) }

  /** `!allowedSubIds?.length || allowedSubIds.includes(subId)`. */
  predicate CanManageSubEvent(e: Event, userId: string, subId: string) {
    match CurrentOrganizer(e.organizers, userId)
    case None => true
    case Some(o) =>
      o.allowedSubEventIds.None? || |o.allowedSubEventIds.value| == 0 || subId in o.allowedSubEventIds.value
  }

  predicate ScopeAllows(e: Event, userId: string, selectedSubId: Option<string>) {
    var sel := Selection(selectedSubId);
    sel.None? || CanManageSubEvent(e, userId, sel.value)
  }

  predicate CanManageProgramHere(e: Event, userId: string, selectedSubId: Option<string>) {
    CanManageProgram(e, userId) && ScopeAllows(e, userId, selectedSubId)
  }

  predicate CanManageGuestsHere(e: Event, userId: string, selectedSubId: Option<string>) {
    CanManageGuests(e, userId) && ScopeAllows(e, userId, selectedSubId)
  }

  predicate CanChatForCurrentSubEvent(e: Event, userId: string, selectedSubId: Option<string>) {
    var sel := Selection(selectedSubId);
    sel.Some? && (IsOwner(e, userId) || (CanChat(e, userId) && CanManageSubEvent(e, userId, sel.value)))
  }

  predicate CanSendChat(e: Event, userId: string, selectedSubId: Option<string>) {
    if Selection(selectedSubId).Some? then CanChatForCurrentSubEvent(e, userId, selectedSubId)
    else CanChat(e, userId)
  }

  /** A user holds a permission exactly when they own the event, or their first
      confirmed organizer entry lists that permission or the wildcard. */
  lemma HasPermissionIff(e: Event, userId: string, p: Permission)
    ensures HasPermission(e, userId, p) <==>
      IsOwner(e, userId)
      || exists i :: IsFirstConfirmed(e.organizers, userId, i)
                     && (p in e.organizers[i].permissions || All in e.organizers[i].permissions)
  {
    var r := CurrentOrganizer(e.organizers, userId);
    if r.Some? {
      var k :| IsFirstConfirmed(e.organizers, userId, k) && e.organizers[k] == r.value;
      forall i | IsFirstConfirmed(e.organizers, userId, i) ensures i == k {
        FirstConfirmedUnique(e.organizers, userId, i, k);
      }
    }
  }

  /** A pending entry grants nothing: a user who is not the owner and has no
      confirmed entry holds no permission, whatever their pending entries list. */
  lemma PendingGrantsNothing(e: Event, userId: string, p: Permission)
    requires !IsOwner(e, userId)
    requires forall o :: o in e.organizers && o.userId == userId ==> o.status == Pending
    ensures !HasPermission(e, userId, p)
  {
    forall i | 0 <= i < |e.organizers| ensures !IsConfirmedFor(e.organizers[i], userId) {
      assert e.organizers[i] in e.organizers;
    }
  }

  /** The scope check: unscoped users (no confirmed entry, or an entry without a
      non-empty scope) may manage every sequence; a scoped organizer only the listed ones. */
  lemma CanManageSubEventIff(e: Event, userId: string, subId: string)
    ensures CanManageSubEvent(e, userId, subId) <==>
      (forall i :: 0 <= i < |e.organizers| ==> !IsConfirmedFor(e.organizers[i], userId))
      || exists i :: IsFirstConfirmed(e.organizers, userId, i)
                     && var scope := e.organizers[i].allowedSubEventIds;
                        (scope.None? || |scope.value| == 0 || subId in scope.value)
  {
    var r := CurrentOrganizer(e.organizers, userId);
    if r.Some? {
      var k :| IsFirstConfirmed(e.organizers, userId, k) && e.organizers[k] == r.value;
      forall i | IsFirstConfirmed(e.organizers, userId, i) ensures i == k {
        FirstConfirmedUnique(e.organizers, userId, i, k);
      }
      assert IsConfirmedFor(e.organizers[k], userId);
    }
  }

  /** The "here" gates for a confirmed, scoped organizer: the base capability and,
      when a sequence is selected, membership of that sequence in the scope. */
  lemma ScopedOrganizerGates(e: Event, userId: string, i: int, selectedSubId: Option<string>)
    requires !IsOwner(e, userId)
    requires IsFirstConfirmed(e.organizers, userId, i)
    requires e.organizers[i].allowedSubEventIds.Some? && |e.organizers[i].allowedSubEventIds.value| > 0
    ensures var perms := e.organizers[i].permissions;
            var scope := e.organizers[i].allowedSubEventIds.value;
            var sel := Selection(selectedSubId);
            && (CanManageGuestsHere(e, userId, selectedSubId) <==>
                  (ManageGuests in perms || All in perms) && (sel.None? || sel.value in scope))
            && (CanManageProgramHere(e, userId, selectedSubId) <==>
                  (ManageSubevents in perms || All in perms) && (sel.None? || sel.value in scope))
            && (CanSendChat(e, userId, selectedSubId) <==>
                  (AccessOrganizerChat in perms || All in perms) && (sel.None? || sel.value in scope))
  {
    var r := CurrentOrganizer(e.organizers, userId);
    assert IsConfirmedFor(e.organizers[i], userId);
    var k :| IsFirstConfirmed(e.organizers, userId, k) && e.organizers[k] == r.value;
    FirstConfirmedUnique(e.organizers, userId, i, k);
  }

  /** The sequence chat is hidden when no sequence is selected; the owner can always
      send, globally and in every sequence. */
  lemma ChatGates(e: Event, userId: string, selectedSubId: Option<string>)
    ensures Selection(selectedSubId).None? ==> !CanChatForCurrentSubEvent(e, userId, selectedSubId)
    ensures Selection(selectedSubId).None? ==> (CanSendChat(e, userId, selectedSubId) <==> CanChat(e, userId))
    ensures IsOwner(e, userId) ==> CanSendChat(e, userId, selectedSubId)
  {
  }

  // ---------------------------------------------------------------------------
  // Rights dialogs: the permission and sequence checkboxes.

  /** `xs.filter(x => x !== v)`. */
  function Without<T(==,!new)>(xs: seq<T>, v: T): (r: seq<T>)
    ensures forall x :: x in r <==> x in xs && x != v
    ensures |r| <= |xs|
    ensures v !in xs ==> r == xs
  {
    if xs == [] then []
    else if xs[0] == v then Without(xs[1..], v)
    else [xs[0]] + Without(xs[1..], v)
  }

  predicate NoDuplicates<T(==)>(xs: seq<T>) {
    forall i, j :: 0 <= i < j < |xs| ==> xs[i] != xs[j]
  }

  lemma {:induction false} WithoutKeepsNoDuplicates<T(!new)>(xs: seq<T>, v: T)
    requires NoDuplicates(xs)
    ensures NoDuplicates(Without(xs, v))
  {
    if xs != [] {
      WithoutKeepsNoDuplicates(xs[1..], v);
      if xs[0] != v {
        assert xs[0] !in xs[1..];
        assert xs[0] !in Without(xs[1..], v);
      }
    }
  }

  /** `togglePermission` (components/EventDetail.tsx:448-459). */
  function TogglePermission(p: Permission, current: seq<Permission>): seq<Permission> {
    if p == All then (if All in current then [] else [All])
    else if All in current then Without(current, All)
    else if p in current then Without(current, p)
    else current + [p]
  }

  /** What one click does: the wildcard switches between `[]` and exactly `[all]`;
      another tag while `all` is held only drops `all` (the clicked tag is NOT added);
      otherwise the clicked tag's membership flips and nothing else changes. */
  lemma TogglePermissionSpec(p: Permission, current: seq<Permission>)
    ensures var r := TogglePermission(p, current);
      && (p == All ==> r == (if All in current then [] else [All]))
      && (p != All && All in current ==> forall x :: x in r <==> x in current && x != All)
      && (p != All && All !in current ==>
            (p in r <==> p !in current) && forall x :: x != p ==> (x in r <==> x in current))
  {
  }

  /** The shape both dialogs keep: no tag twice, and `all` only ever alone. */
  predicate WellFormedGrant(perms: seq<Permission>) {
    NoDuplicates(perms) && (All in perms ==> perms == [All])
  }

  lemma TogglePermissionPreserves(p: Permission, current: seq<Permission>)
    requires WellFormedGrant(current)
    ensures WellFormedGrant(TogglePermission(p, current))
  {
    if p != All && All !in current {
      if p in current {
        WithoutKeepsNoDuplicates(current, p);
      } else {
        assert NoDuplicates(current + [p]);
      }
    } else if p != All {
      assert current == [All];
      assert Without(current, All) == [];
    }
  }

  /** `toggleSubEvent` (components/EventDetail.tsx:461-464). */
  function ToggleSubEvent(subId: string, current: seq<string>): seq<string> {
    if subId in current then Without(current, subId) else current + [subId]
  }

  /** The clicked sequence's membership flips; the others stay; no id is ever listed twice. */
  lemma ToggleSubEventSpec(subId: string, current: seq<string>)
    requires NoDuplicates(current)
    ensures var r := ToggleSubEvent(subId, current);
      && (subId in r <==> subId !in current)
      && (forall x :: x != subId ==> (x in r <==> x in current))
      && NoDuplicates(r)
  {
    if subId in current {
      WithoutKeepsNoDuplicates(current, subId);
    }
  }
}
