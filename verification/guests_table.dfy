/** The guest table of an event (components/GuestsTable.tsx): the clamped
    head-count and attendance readings, the patches its inputs send to the
    event, and the sub-event filter. Every operation builds a new event value. */
module GuestsTable {
  import opened Types
  import Permissions

  /** `Math.max(lo, Math.min(hi, v))`. */
  function Clamp(lo: int, hi: int, v: int): (r: int)
    requires lo <= hi
    ensures lo <= r <= hi
    ensures lo <= v <= hi ==> r == v
    ensures v < lo ==> r == lo
    ensures hi < v ==> r == hi
  {
    if v < lo then lo else if hi < v then hi else v
  }

  const MaxGuestCount := 99

  /** `getGuestCount`: the number of people a guest entry stands for. An absent
      count means one person; a stored count is brought into [1, 99]. */
  function GuestCount(g: Guest): (n: int)
    ensures 1 <= n <= MaxGuestCount
    ensures g.guestCount.None? ==> n == 1
    ensures g.guestCount.Some? && 1 <= g.guestCount.value <= MaxGuestCount ==> n == g.guestCount.value
  {
    Clamp(1, MaxGuestCount, g.guestCount.GetOr(1))
  }

  /** `getAttendance`: how many of the guest's people are present at a sub-event.
      No attendance map or no entry reads as 0; a stored number is brought into
      [0, GuestCount(g)], so the reading never exceeds the current head-count. */
  function Attendance(g: Guest, subEventId: string): (n: int)
    ensures 0 <= n <= GuestCount(g)
    ensures (g.attendance.None? || subEventId !in g.attendance.value) ==> n == 0
    ensures g.attendance.Some? && subEventId in g.attendance.value
            && 0 <= g.attendance.value[subEventId] <= GuestCount(g)
            ==> n == g.attendance.value[subEventId]
  {
    if g.attendance.None? || subEventId !in g.attendance.value then 0
    else Clamp(0, GuestCount(g), g.attendance.value[subEventId])
  }

  /** The two partial guests the table sends: `{ guestCount: n }` and `{ attendance: m }`. */
  datatype GuestPatch = CountPatch(count: int) | AttendancePatch(attendance: GuestAttendance)

  /** `{ ...g, ...patch }`. */
  function ApplyPatch(g: Guest, patch: GuestPatch): Guest {
    match patch
    case CountPatch(n) => g.(guestCount := Some(n))
    case AttendancePatch(m) => g.(attendance := Some(m))
  }

  /** `updateGuest`: every guest whose id is `guestId` is patched; the other
      guests, their order and every other field of the event stay as they were. */
  function UpdateGuest(e: Event, guestId: string, patch: GuestPatch): (r: Event)
    ensures r.(guests := e.guests) == e
    ensures |r.guests| == |e.guests|
    ensures forall i :: 0 <= i < |e.guests| && e.guests[i].id != guestId ==> r.guests[i] == e.guests[i]
    ensures forall i :: 0 <= i < |e.guests| && e.guests[i].id == guestId ==>
              r.guests[i] == ApplyPatch(e.guests[i], patch)
  {
    e.(guests := seq(|e.guests|, i requires 0 <= i < |e.guests| =>
                       if e.guests[i].id == guestId then ApplyPatch(e.guests[i], patch) else e.guests[i]))
  }

  /** A patch for an id no guest has leaves the event unchanged, and a patch never
      changes a guest's id, so the list of ids is the same before and after. */
  lemma UpdateGuestKeepsIds(e: Event, guestId: string, patch: GuestPatch)
    ensures forall i :: 0 <= i < |e.guests| ==> UpdateGuest(e, guestId, patch).guests[i].id == e.guests[i].id
    ensures (forall g :: g in e.guests ==> g.id != guestId) ==> UpdateGuest(e, guestId, patch) == e
  {
    var r := UpdateGuest(e, guestId, patch);
    if forall g :: g in e.guests ==> g.id != guestId {
      assert forall i :: 0 <= i < |e.guests| ==> e.guests[i] in e.guests;
      assert r.guests == e.guests;
    }
  }

  /** `setGuestCount`: the entered value, brought into [1, 99], becomes the guest's count. */
  function SetGuestCount(e: Event, g: Guest, value: int): Event {
    UpdateGuest(e, g.id, CountPatch(Clamp(1, MaxGuestCount, value)))
  }

  /** After `setGuestCount`, every entry of that guest reads back the clamped value,
      its attendance map is untouched, and no other guest changes. */
  lemma SetGuestCountSpec(e: Event, g: Guest, value: int, i: int)
    requires 0 <= i < |e.guests|
    ensures var r := SetGuestCount(e, g, value);
      && (e.guests[i].id == g.id ==>
            GuestCount(r.guests[i]) == Clamp(1, MaxGuestCount, value)
            && r.guests[i].attendance == e.guests[i].attendance)
      && (e.guests[i].id != g.id ==> r.guests[i] == e.guests[i])
  {
  }

  /** Lowering the head-count below a recorded attendance does not rewrite the
      attendance, but the reading is capped by the new count. */
  lemma LoweredCountCapsAttendance(e: Event, g: Guest, value: int, i: int, subEventId: string)
    requires 0 <= i < |e.guests| && e.guests[i].id == g.id
    ensures var r := SetGuestCount(e, g, value);
      Attendance(r.guests[i], subEventId) <= Clamp(1, MaxGuestCount, value)
  {
  }

  /** The attendance map `setAttendance` writes: the guest's map as the table
      showed it, with the clamped value stored under the sub-event. */
  function AttendanceWith(g: Guest, subEventId: string, value: int): (m: GuestAttendance)
    ensures subEventId in m && 0 <= m[subEventId] <= GuestCount(g)
    ensures 0 <= value <= GuestCount(g) ==> m[subEventId] == value
    ensures forall k :: k != subEventId ==>
              (k in m <==> g.attendance.Some? && k in g.attendance.value)
    ensures forall k :: k != subEventId && k in m ==> m[k] == g.attendance.value[k]
  {
    g.attendance.GetOr(map[])[subEventId := Clamp(0, GuestCount(g), value)]
  }

  /** `setAttendance`: the entered value, brought into [0, GuestCount(g)], is
      stored under that sub-event; the other entries of the map are kept. */
  function SetAttendance(e: Event, g: Guest, subEventId: string, value: int): Event {
    UpdateGuest(e, g.id, AttendancePatch(AttendanceWith(g, subEventId, value)))
  }

  /** After `setAttendance` on the guest as shown, the table reads back the clamped
      value for that sub-event and the old readings for every other sub-event. */
  lemma SetAttendanceReadsBack(e: Event, i: int, subEventId: string, value: int, other: string)
    requires 0 <= i < |e.guests|
    requires other != subEventId
    ensures var g := e.guests[i];
      var r := SetAttendance(e, g, subEventId, value);
      && Attendance(r.guests[i], subEventId) == Clamp(0, GuestCount(g), value)
      && Attendance(r.guests[i], other) == Attendance(g, other)
      && GuestCount(r.guests[i]) == GuestCount(g)
  {
    var g := e.guests[i];
    var r := SetAttendance(e, g, subEventId, value);
    assert r.guests[i] == g.(attendance := Some(AttendanceWith(g, subEventId, value)));
  }

  /** The guests the table lists: with a sequence filter (a non-empty id), those
      linked to it; without one, all of them. */
  function ShownGuests(guests: seq<Guest>, filterSubEventId: Option<string>): (r: seq<Guest>)
    ensures Permissions.Selection(filterSubEventId).None? ==> r == guests
    ensures |r| <= |guests|
  {
    var sel := Permissions.Selection(filterSubEventId);
    if sel.None? then guests else LinkedTo(guests, sel.value)
  }

  /** The guests linked to a sub-event, in list order. */
  function LinkedTo(guests: seq<Guest>, subEventId: string): (r: seq<Guest>)
    ensures |r| <= |guests|
    ensures forall g :: g in r <==> g in guests && subEventId in g.linkedSubEventIds
  {
    if guests == [] then []
    else
      var rest := LinkedTo(guests[1..], subEventId);
      assert forall g :: g in guests <==> g == guests[0] || g in guests[1..];
      if subEventId in guests[0].linkedSubEventIds then [guests[0]] + rest else rest
  }

  /** `xs` is `ys` with some entries left out, the rest kept in order. */
  predicate SubsequenceOf<T(==)>(xs: seq<T>, ys: seq<T>)
    decreases |ys|
  {
    xs == [] || (ys != [] && (if xs[0] == ys[0] then SubsequenceOf(xs[1..], ys[1..]) else SubsequenceOf(xs, ys[1..])))
  }

  lemma {:induction false} SubsequenceOfSelf<T>(ys: seq<T>)
    ensures SubsequenceOf(ys, ys)
    decreases |ys|
  {
    if ys != [] {
      SubsequenceOfSelf(ys[1..]);
    }
  }

  /** Putting one more entry in front of `ys` keeps `xs` a subsequence of it. */
  lemma {:induction false} SubsequenceOfSkip<T>(xs: seq<T>, y: T, ys: seq<T>)
    requires SubsequenceOf(xs, ys)
    ensures SubsequenceOf(xs, [y] + ys)
    decreases |ys|, 1
  {
    var yys := [y] + ys;
    assert yys[1..] == ys;
    if xs != [] && xs[0] == y {
      SubsequenceOfTail(xs, ys);
    }
  }

  /** Dropping the first entry of a subsequence keeps it a subsequence. */
  lemma {:induction false} SubsequenceOfTail<T>(xs: seq<T>, ys: seq<T>)
    requires xs != [] && SubsequenceOf(xs, ys)
    ensures SubsequenceOf(xs[1..], ys)
    decreases |ys|, 0
  {
    if xs[0] == ys[0] {
      SubsequenceOfSkip(xs[1..], ys[0], ys[1..]);
    } else {
      SubsequenceOfTail(xs, ys[1..]);
      SubsequenceOfSkip(xs[1..], ys[0], ys[1..]);
    }
    assert [ys[0]] + ys[1..] == ys;
  }

  /** With a filter, the table shows exactly the guests linked to it, in their
      original order. */
  lemma {:induction false} ShownGuestsFiltered(guests: seq<Guest>, subEventId: string)
    requires subEventId != ""
    ensures var r := ShownGuests(guests, Some(subEventId));
      && SubsequenceOf(r, guests)
      && (forall g :: g in r <==> g in guests && subEventId in g.linkedSubEventIds)
    decreases |guests|
  {
    var r := LinkedTo(guests, subEventId);
    if guests != [] {
      ShownGuestsFiltered(guests[1..], subEventId);
      var rest := LinkedTo(guests[1..], subEventId);
      if subEventId in guests[0].linkedSubEventIds {
        assert r == [guests[0]] + rest;
        assert r[1..] == rest;
      } else {
        assert r == rest;
        SubsequenceOfSkip(rest, guests[0], guests[1..]);
        assert [guests[0]] + guests[1..] == guests;
      }
    }
  }
}
