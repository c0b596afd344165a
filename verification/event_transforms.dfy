/** The document transforms the event detail view hands to the atomic update
    (components/EventDetail.tsx): adding and deleting sequences, key moments and guests,
    the two settings dialogs and the share password, plus the invitation text.
    Each handler is split in two: the check the view makes on its own snapshot (which
    decides whether an update is sent at all, and builds the new item from the form and
    a fresh UUID), and the transform applied to the freshly fetched event. */
module EventTransforms {
  import opened Types
  import opened Text
  import opened Permissions
  import EventStore
  import ContactImport

  /** What every transform here leaves alone: the row key, the share code, the creator
      and the organizer list, hence every permission gate. */
  predicate KeepsIdentity(a: Event, b: Event) {
    a.id == b.id && a.shareCode == b.shareCode && a.creatorId == b.creatorId && a.organizers == b.organizers
  }

  /** Gates depend on the creator and the organizer list only, so no transform here
      changes anybody's rights. */
  lemma IdentityKeepsRights(a: Event, b: Event, userId: string, sel: Option<string>)
    requires KeepsIdentity(a, b)
    ensures forall p :: HasPermission(a, userId, p) <==> HasPermission(b, userId, p)
    ensures CanManageProgramHere(a, userId, sel) <==> CanManageProgramHere(b, userId, sel)
    ensures CanManageGuestsHere(a, userId, sel) <==> CanManageGuestsHere(b, userId, sel)
    ensures CanSendChat(a, userId, sel) <==> CanSendChat(b, userId, sel)
  {
  }

  // ---------------------------------------------------------------------------
  // Share password (:89-107).

  /** `saveNewPassword`: nothing is sent for a blank entry or while a save is running;
      otherwise the trimmed text is what gets stored. */
  function PasswordToSave(entered: string, saving: bool): (r: Option<string>)
    ensures r.Some? <==> !saving && !AllSpace(entered)
    ensures r.Some? ==> r.value != "" && Trim(r.value) == r.value && r.value == Trim(entered)
  {
    TrimEmptyIff(entered);
    TrimIdempotent(entered);
    var trimmed := Trim(entered);
    if trimmed == "" || saving then None else Some(trimmed)
  }

  function SetPassword(evt: Event, password: string): (r: Event)
    ensures KeepsIdentity(evt, r) && r.sharePassword == password
    ensures r.(sharePassword := evt.sharePassword) == evt
  {
    evt.(sharePassword := password)
  }

  /** A saved password is looked up under its own trim: the credential check (which
      compares trimmed texts) accepts exactly the entries that trim to it. */
  lemma SavedPasswordMatches(evt: Event, entered: string, attempt: string)
    requires PasswordToSave(entered, false).Some?
    ensures var stored := SetPassword(evt, PasswordToSave(entered, false).value).sharePassword;
            Trim(stored) == Trim(attempt) <==> Trim(attempt) == Trim(entered)
  {
  }

  // ---------------------------------------------------------------------------
  // Invitation text (handleShare, :243-255).

  const InvitationHeader: string := "Invitation co-organisateur – "
  const KeyPrefix: string := "Clé de partage : "
  const PasswordPrefix: string := "Mot de passe : "

  const Signature: string := "— myEvent"

  /** The six lines before the credentials. */
  function InvitationIntro(title: string): seq<string> {
    [InvitationHeader + title,
     "",
     "Pour rejoindre ce projet sur myEvent :",
     "1. Ouvre l’app et clique sur « Rejoindre »",
     "2. Saisis la clé et le mot de passe ci-dessous (ou « Coller l'invitation ») :",
     ""]
  }

  /** The share key and password lines, an empty line and the signature. */
  function InvitationCredentials(shareCode: string, sharePassword: string): seq<string> {
    [KeyPrefix + Trim(shareCode), PasswordPrefix + Trim(sharePassword), "", Signature]
  }

  /** The ten lines of the invitation, in order. */
  function InvitationLines(title: string, shareCode: string, sharePassword: string): seq<string> {
    InvitationIntro(title) + InvitationCredentials(shareCode, sharePassword)
  }

  /** The lines joined with line feeds, as shared or copied to the clipboard. */
  function InvitationText(e: Event): string {
    Join(InvitationLines(e.title, e.shareCode, e.sharePassword), "\n")
  }

  // ---------------------------------------------------------------------------
  // Sequences (:264-280, :526-541).

  datatype SequenceForm = SequenceForm(title: string, date: string, location: string)

  /** `handleAddSequence`: refused without the program right or with an empty title
      (not trimmed); otherwise the form is spread into a new sequence with no guests
      estimate and no key moments. The form's strings are kept as they are, even empty. */
  function NewSequence(e: Event, userId: string, uuid: string, form: SequenceForm): (r: Option<SubEvent>)
    ensures r.Some? <==> CanManageProgram(e, userId) && form.title != ""
    ensures r.Some? ==> r.value == SubEvent(uuid, form.title, Some(form.date), Some(form.location), 0, [])
  {
    if !CanManageProgram(e, userId) || form.title == "" then None
    else Some(SubEvent(uuid, form.title, Some(form.date), Some(form.location), 0, []))
  }

  function AddSequence(evt: Event, s: SubEvent): (r: Event)
    ensures KeepsIdentity(evt, r) && r.guests == evt.guests
    ensures r.subEvents == evt.subEvents + [s]
    ensures r.(subEvents := evt.subEvents) == evt
  {
    evt.(subEvents := evt.subEvents + [s])
  }

  /** `subEvents.filter(s => s.id !== subId)`. */
  function RemoveSequence(subs: seq<SubEvent>, subId: string): (r: seq<SubEvent>)
    ensures forall s :: s in r <==> s in subs && s.id != subId
    ensures |r| <= |subs|
  {
    if subs == [] then []
    else if subs[0].id == subId then RemoveSequence(subs[1..], subId)
    else [subs[0]] + RemoveSequence(subs[1..], subId)
  }

  /** `handleDeleteSubEvent` is sent only with the program right for the selected
      sequence, a selection, and the user's confirmation. */
  predicate MayDeleteSequence(e: Event, userId: string, selectedSubId: Option<string>, confirmed: bool) {
    CanManageProgramHere(e, userId, selectedSubId) && Selection(selectedSubId).Some? && confirmed
  }

  /** The deletion touches only the sequence list: guests keep their links to the
      deleted id. */
  function DeleteSequence(evt: Event, subId: string): (r: Event)
    ensures KeepsIdentity(evt, r) && r.guests == evt.guests
    ensures forall s :: s in r.subEvents <==> s in evt.subEvents && s.id != subId
    ensures r.(subEvents := evt.subEvents) == evt
  {
    evt.(subEvents := RemoveSequence(evt.subEvents, subId))
  }

  /** Removing an id nobody carries changes nothing. */
  lemma {:induction false} RemoveAbsentSequence(subs: seq<SubEvent>, subId: string)
    requires forall s :: s in subs ==> s.id != subId
    ensures RemoveSequence(subs, subId) == subs
  {
    if subs != [] {
      RemoveAbsentSequence(subs[1..], subId);
    }
  }

  lemma {:induction false} RemoveSequenceAppend(a: seq<SubEvent>, b: seq<SubEvent>, subId: string)
    ensures RemoveSequence(a + b, subId) == RemoveSequence(a, subId) + RemoveSequence(b, subId)
  {
    if a != [] {
      assert (a + b)[1..] == a[1..] + b;
      RemoveSequenceAppend(a[1..], b, subId);
    } else {
      assert a + b == b;
    }
  }

  /** Deleting a sequence just added under a fresh id gives the event back. */
  lemma AddThenDeleteSequence(evt: Event, s: SubEvent)
    requires forall t :: t in evt.subEvents ==> t.id != s.id
    ensures DeleteSequence(AddSequence(evt, s), s.id) == evt
  {
    RemoveSequenceAppend(evt.subEvents, [s], s.id);
    RemoveAbsentSequence(evt.subEvents, s.id);
    assert RemoveSequence([s], s.id) == [];
  }

  /** The deletion leaves dangling links: a guest linked to the deleted sequence is
      still linked to it, though no sequence carries that id any more. */
  lemma DeleteLeavesGuestLinks(evt: Event, subId: string, g: Guest)
    requires g in evt.guests && subId in g.linkedSubEventIds
    ensures var r := DeleteSequence(evt, subId);
            g in r.guests && subId in g.linkedSubEventIds && forall s :: s in r.subEvents ==> s.id != subId
  {
  }

  // ---------------------------------------------------------------------------
  // Key moments (:466-477).

  datatype MomentForm = MomentForm(time: string, labelText: string)

  /** `handleAddKeyMoment`: needs the program right for the selected sequence, a
      selection, and a label (not trimmed); the form is copied verbatim. */
  function NewKeyMoment(e: Event, userId: string, selectedSubId: Option<string>, uuid: string, form: MomentForm)
    : (r: Option<KeyMoment>)
    ensures r.Some? <==> CanManageProgramHere(e, userId, selectedSubId) && Selection(selectedSubId).Some?
                          && form.labelText != ""
    ensures r.Some? ==> r.value == KeyMoment(uuid, form.time, form.labelText)
  {
    if !CanManageProgramHere(e, userId, selectedSubId) || Selection(selectedSubId).None? || form.labelText == ""
    then None
    else Some(KeyMoment(uuid, form.time, form.labelText))
  }

  /** The moment is appended to every sequence carrying the selected id (one, when ids
      are unique); every other sequence and every other field is unchanged. */
  function AddKeyMoment(evt: Event, subId: string, m: KeyMoment): (r: Event)
    ensures KeepsIdentity(evt, r) && r.guests == evt.guests
    ensures |r.subEvents| == |evt.subEvents|
    ensures forall i :: 0 <= i < |evt.subEvents| ==>
              var s := evt.subEvents[i];
              r.subEvents[i].(keyMoments := s.keyMoments) == s
              && r.subEvents[i].keyMoments == if s.id == subId then s.keyMoments + [m] else s.keyMoments
    ensures r.(subEvents := evt.subEvents) == evt
  {
    evt.(subEvents := seq(|evt.subEvents|, i requires 0 <= i < |evt.subEvents| =>
      var s := evt.subEvents[i];
      if s.id == subId then s.(keyMoments := s.keyMoments + [m]) else s))
  }

  /** Sequence ids survive the moment: the sequence list keeps its shape. */
  lemma AddKeyMomentKeepsIds(evt: Event, subId: string, m: KeyMoment)
    ensures var r := AddKeyMoment(evt, subId, m);
            forall i :: 0 <= i < |evt.subEvents| ==>
              r.subEvents[i].id == evt.subEvents[i].id && r.subEvents[i].title == evt.subEvents[i].title
  {
    var r := AddKeyMoment(evt, subId, m);
    forall i | 0 <= i < |evt.subEvents|
      ensures r.subEvents[i].id == evt.subEvents[i].id && r.subEvents[i].title == evt.subEvents[i].title
    {
      assert r.subEvents[i].(keyMoments := evt.subEvents[i].keyMoments) == evt.subEvents[i];
    }
  }

  // ---------------------------------------------------------------------------
  // Guests (:364-410).

  datatype GuestForm = GuestForm(firstName: string, lastName: string, email: string, phone: string)

  /** `handleAddGuest`: needs the guest right for the selected sequence, a selection
      and a non-blank first name. The guest comes in confirmed, trimmed, linked to the
      selected sequence only, with no phone when it is blank. */
  function NewGuest(e: Event, userId: string, selectedSubId: Option<string>, uuid: string, form: GuestForm)
    : (r: Option<Guest>)
    ensures r.Some? <==> CanManageGuestsHere(e, userId, selectedSubId) && Selection(selectedSubId).Some?
                          && !AllSpace(form.firstName)
    ensures r.Some? ==>
              (var g := r.value;
               && g.id == uuid && g.status == GuestConfirmed && g.companions == []
               && g.linkedSubEventIds == [Selection(selectedSubId).value]
               && g.firstName == Trim(form.firstName) && g.firstName != ""
               && g.lastName == Trim(form.lastName) && g.email == Trim(form.email)
               && (g.phone.None? <==> AllSpace(form.phone))
               && (g.phone.Some? ==> g.phone.value == Trim(form.phone))
               && g.guestCount.None? && g.attendance.None?)
  {
    TrimEmptyIff(form.firstName);
    TrimEmptyIff(form.phone);
    var sel := Selection(selectedSubId);
    if !CanManageGuestsHere(e, userId, selectedSubId) || sel.None? || Trim(form.firstName) == "" then None
    else Some(Guest(uuid, Trim(form.firstName), Trim(form.lastName), Trim(form.email),
                    NonEmptyOrNone(Trim(form.phone)), GuestConfirmed, [], [sel.value], None, None))
  }

  /** One imported contact as a guest: blank names become "Prénom" and "Nom", the
      guest is pending and linked to the selected sequence only. */
  function ImportedGuest(uuid: string, c: ContactImport.ImportedContact, subId: string): (g: Guest)
    ensures g.id == uuid && g.status == GuestPending && g.linkedSubEventIds == [subId] && g.companions == []
    ensures g.firstName == OrElse(Trim(c.firstName), "Prénom") && g.lastName == OrElse(Trim(c.lastName), "Nom")
    ensures g.email == Trim(c.email) && g.phone == NonEmptyOrNone(Trim(c.phone))
  {
    Guest(uuid, OrElse(Trim(c.firstName), "Prénom"), OrElse(Trim(c.lastName), "Nom"), Trim(c.email),
          NonEmptyOrNone(Trim(c.phone)), GuestPending, [], [subId], None, None)
  }

  function ImportedGuests(uuids: seq<string>, contacts: seq<ContactImport.ImportedContact>, subId: string)
    : (r: seq<Guest>)
    requires |uuids| == |contacts|
    ensures |r| == |contacts|
    ensures forall i :: 0 <= i < |contacts| ==> r[i] == ImportedGuest(uuids[i], contacts[i], subId)
  {
    if contacts == [] then []
    else [ImportedGuest(uuids[0], contacts[0], subId)] + ImportedGuests(uuids[1..], contacts[1..], subId)
  }

  /** `handleAddAllImportedGuests`: one guest per contact, in order, when the user may
      manage guests for the selected sequence and one is selected; nothing otherwise. */
  function ImportGuests(e: Event, userId: string, selectedSubId: Option<string>,
                        uuids: seq<string>, contacts: seq<ContactImport.ImportedContact>): (r: Option<seq<Guest>>)
    requires |uuids| == |contacts|
    ensures r.Some? <==> CanManageGuestsHere(e, userId, selectedSubId) && Selection(selectedSubId).Some?
    ensures r.Some? ==> r.value == ImportedGuests(uuids, contacts, Selection(selectedSubId).value)
  {
    var sel := Selection(selectedSubId);
    if !CanManageGuestsHere(e, userId, selectedSubId) || sel.None? then None
    else Some(ImportedGuests(uuids, contacts, sel.value))
  }

  /** Every imported guest has both names, is pending and is linked to the sequence. */
  lemma ImportedGuestsAreNamed(uuids: seq<string>, contacts: seq<ContactImport.ImportedContact>, subId: string)
    requires |uuids| == |contacts|
    ensures forall g :: g in ImportedGuests(uuids, contacts, subId) ==>
              g.firstName != "" && g.lastName != "" && g.status == GuestPending && g.linkedSubEventIds == [subId]
  {
  }

  /** `guests: [...(evt.guests || []), ...toAdd]`. */
  function AddGuests(evt: Event, gs: seq<Guest>): (r: Event)
    ensures KeepsIdentity(evt, r) && r.subEvents == evt.subEvents
    ensures r.guests == evt.guests + gs
    ensures r.(guests := evt.guests) == evt
  {
    evt.(guests := evt.guests + gs)
  }

  /** `updateAtomic` fetches and writes in two steps. Two organizers each add a guest to
      the same stored row: when both fetch before either writes, the second write holds
      only its own guest and the first guest is lost; when the second fetches after the
      first write, the row holds both, in order. */
  lemma LostGuestUpdate(row: EventStore.DbEvent, ga: Guest, gb: Guest)
    requires ga != gb && ga !in row.guests
    ensures var e := EventStore.FromDb(row);
      var racing := EventStore.ToDb(AddGuests(e, [gb]));
      var sequential := EventStore.ToDb(AddGuests(EventStore.FromDb(EventStore.ToDb(AddGuests(e, [ga]))), [gb]));
      && ga !in racing.guests && gb in racing.guests
      && sequential.guests == row.guests + [ga, gb]
  {
    var e := EventStore.FromDb(row);
    var afterA := AddGuests(e, [ga]);
    EventStore.FromToDb(afterA);
    assert row.guests + [ga] + [gb] == row.guests + [ga, gb];
  }

  // ---------------------------------------------------------------------------
  // Sequence settings (:502-524).

  datatype SequenceSettingsForm = SequenceSettingsForm(title: string, date: string, location: string)

  /** `handleSaveSubEventSettings` checks only that a sequence is selected: the right
      to manage the program is left to the button's visibility. */
  predicate MaySaveSequenceSettings(selectedSubId: Option<string>) {
    Selection(selectedSubId).Some?
  }

  /** The settings applied to one sequence: a blank title keeps the old one, an empty
      date and a blank location clear those fields. */
  function ApplySequenceSettings(s: SubEvent, form: SequenceSettingsForm): (r: SubEvent)
    ensures r.id == s.id && r.keyMoments == s.keyMoments && r.estimatedGuests == s.estimatedGuests
    ensures r.title == OrElse(Trim(form.title), s.title)
    ensures r.date == NonEmptyOrNone(form.date) && r.location == NonEmptyOrNone(Trim(form.location))
  {
    s.(title := OrElse(Trim(form.title), s.title),
       date := NonEmptyOrNone(form.date),
       location := NonEmptyOrNone(Trim(form.location)))
  }

  function SaveSequenceSettings(evt: Event, subId: string, form: SequenceSettingsForm): (r: Event)
    ensures KeepsIdentity(evt, r) && r.guests == evt.guests
    ensures |r.subEvents| == |evt.subEvents|
    ensures forall i :: 0 <= i < |evt.subEvents| ==>
              r.subEvents[i] == if evt.subEvents[i].id == subId
                                then ApplySequenceSettings(evt.subEvents[i], form) else evt.subEvents[i]
    ensures r.(subEvents := evt.subEvents) == evt
  {
    evt.(subEvents := seq(|evt.subEvents|, i requires 0 <= i < |evt.subEvents| =>
      if evt.subEvents[i].id == subId then ApplySequenceSettings(evt.subEvents[i], form) else evt.subEvents[i]))
  }

  /** Saving the same settings twice is the same as saving them once. */
  lemma SaveSequenceSettingsIdempotent(evt: Event, subId: string, form: SequenceSettingsForm)
    ensures var once := SaveSequenceSettings(evt, subId, form);
            SaveSequenceSettings(once, subId, form) == once
  {
    var once := SaveSequenceSettings(evt, subId, form);
    var twice := SaveSequenceSettings(once, subId, form);
    assert twice.subEvents == once.subEvents;
  }

  // ---------------------------------------------------------------------------
  // Event settings (:629-644).

  /** The dialog's fields; the budget is the number `parseFloat(budget) || 0` gives. */
  datatype EventSettingsForm = EventSettingsForm(title: string, isDateTBD: bool, startDate: string,
                                                 location: string, budget: real, image: string)

  /** The start date the dialog submits: none when undecided or left empty. */
  function SubmittedStart(form: EventSettingsForm): (r: Option<string>)
    ensures r.Some? <==> !form.isDateTBD && form.startDate != ""
    ensures r.Some? ==> r.value == form.startDate
  {
    if form.isDateTBD then None else NonEmptyOrNone(form.startDate)
  }

  /** `handleSaveEventSettings`, sent only with the edit right. A blank title or location
      keeps the old one; a missing start keeps the old start and the old `date` (so
      marking the date undecided does not clear it); a blank image clears it. */
  function SaveEventSettings(evt: Event, form: EventSettingsForm): (r: Event)
    ensures KeepsIdentity(evt, r) && r.subEvents == evt.subEvents && r.guests == evt.guests
    ensures r.title == OrElse(Trim(form.title), evt.title) && r.location == OrElse(Trim(form.location), evt.location)
    ensures r.isDateTBD == form.isDateTBD && r.budget == form.budget
    ensures r.image == NonEmptyOrNone(Trim(form.image))
    ensures r.startDate == (if SubmittedStart(form).Some? then SubmittedStart(form) else evt.startDate)
    ensures r.date == (if SubmittedStart(form).Some? then SubmittedStart(form) else evt.date)
    ensures r.sharePassword == evt.sharePassword && r.description == evt.description
  {
    var start := SubmittedStart(form);
    evt.(title := OrElse(Trim(form.title), evt.title),
         isDateTBD := form.isDateTBD,
         startDate := if start.Some? then start else evt.startDate,
         location := OrElse(Trim(form.location), evt.location),
         budget := form.budget,
         image := NonEmptyOrNone(Trim(form.image)),
         date := if start.Some? then start else evt.date)
  }

  /** Every transform here keeps an event in the form `fromDb` gives (description present,
      `date` equal to the start date), so its write and re-read round-trip. */
  lemma TransformsKeepNormalForm(evt: Event, password: string, s: SubEvent, subId: string, m: KeyMoment,
                                 gs: seq<Guest>, sform: SequenceSettingsForm, eform: EventSettingsForm)
    requires EventStore.NormalForm(evt)
    ensures EventStore.NormalForm(SetPassword(evt, password))
    ensures EventStore.NormalForm(AddSequence(evt, s))
    ensures EventStore.NormalForm(DeleteSequence(evt, subId))
    ensures EventStore.NormalForm(AddKeyMoment(evt, subId, m))
    ensures EventStore.NormalForm(AddGuests(evt, gs))
    ensures EventStore.NormalForm(SaveSequenceSettings(evt, subId, sform))
    ensures EventStore.NormalForm(SaveEventSettings(evt, eform))
  {
  }

  /** Marking the date undecided keeps whatever start date was stored. */
  lemma UndecidedKeepsStart(evt: Event, form: EventSettingsForm)
    requires form.isDateTBD
    ensures SaveEventSettings(evt, form).startDate == evt.startDate
    ensures SaveEventSettings(evt, form).isDateTBD
  {
  }
}
