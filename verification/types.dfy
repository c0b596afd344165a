/** The domain records of the application: the Event aggregate and its
    sub-entities, chat messages and user profiles. Optional TypeScript
    properties (`x?: T`) become `Option<T>`. */
module Types {

  datatype Option<+T> = None | Some(value: T) {
    function GetOr(default: T): T {
      match this
      case Some(v) => v
      case None => default
    }
  }

  /** `s || undefined` on strings: the empty string is falsy. */
  function NonEmptyOrNone(s: string): (r: Option<string>)
    ensures r.None? <==> s == ""
    ensures r.Some? ==> r.value == s
  {
    if s == "" then None else Some(s)
  }

  /** The outcome of an operation that throws or reports an error message. */
  datatype Result<+T> = Ok(value: T) | Err(message: string)

  /** A time stamp, in milliseconds since the epoch (the value `Date.getTime` gives
      for a date string that parses). */
  type Timestamp = int

  /** `label` is a Dafny keyword, so the field is named `labelText`. */
  datatype KeyMoment = KeyMoment(id: string, time: string, labelText: string)

  datatype GuestStatus = GuestPending | GuestConfirmed | GuestDeclined

  /** Present head-count per sub-event id. */
  type GuestAttendance = map<string, int>

  /** The `companions` list is never inspected by the application; its entries
      are kept as opaque strings. */
  datatype Guest = Guest(
    id: string,
    firstName: string,
    lastName: string,
    email: string,
    phone: Option<string>,
    status: GuestStatus,
    companions: seq<string>,
    linkedSubEventIds: seq<string>,
    guestCount: Option<int>,
    attendance: Option<GuestAttendance>)

  datatype SubEvent = SubEvent(
    id: string,
    title: string,
    date: Option<string>,
    location: Option<string>,
    estimatedGuests: int,
    keyMoments: seq<KeyMoment>)

  /** The closed set of capability tags; `All` is the wildcard. */
  datatype Permission = EditDetails | ManageSubevents | ManageGuests | AccessOrganizerChat | ViewBudget | All

  datatype OrganizerStatus = Pending | Confirmed

  datatype Organizer = Organizer(
    userId: string,
    firstName: string,
    lastName: string,
    status: OrganizerStatus,
    permissions: seq<Permission>,
    allowedSubEventIds: Option<seq<string>>)

  datatype Category = Business | Social | Sport | Culture

  /** The shared, mutable aggregate. `budget` is a JavaScript number; it is only copied. */
  datatype Event = Event(
    id: string,
    shareCode: string,
    sharePassword: string,
    title: string,
    description: Option<string>,
    startDate: Option<string>,
    endDate: Option<string>,
    isPeriod: bool,
    isDateTBD: bool,
    location: string,
    image: Option<string>,
    creatorId: string,
    organizers: seq<Organizer>,
    category: Category,
    generalGuestsCount: int,
    budget: real,
    subEvents: seq<SubEvent>,
    guests: seq<Guest>,
    isGuestChatEnabled: bool,
    date: Option<string>)

  datatype Role = OwnerRole | OrganizerRole | GuestRole

  /** `timestamp` is the ISO date string the store returns as `created_at`. */
  datatype ChatMessage = ChatMessage(
    id: string,
    eventId: string,
    channelId: string,
    senderId: string,
    senderName: string,
    text: string,
    timestamp: string,
    role: Role)

  datatype User = User(
    id: string,
    email: string,
    firstName: string,
    lastName: string,
    phone: Option<string>,
    street: Option<string>,
    city: Option<string>,
    zipCode: Option<string>,
    createdAt: string,
    avatar: Option<string>)

  /** What the sign-up form submits: a profile without id, creation date and
      avatar, plus the password. */
  datatype RegisterData = RegisterData(
    email: string,
    password: string,
    firstName: string,
    lastName: string,
    phone: Option<string>,
    street: Option<string>,
    city: Option<string>,
    zipCode: Option<string>)

  /** The outcome of a sign-up or a sign-in. */
  datatype AuthResponse = AuthResponse(
    success: bool,
    user: Option<User>,
    error: Option<string>,
    needsEmailConfirmation: Option<bool>)

  /** The six tags in the order the rights dialogs list them. */
  const AllPermissions: seq<Permission> :=
    [EditDetails, ManageSubevents, ManageGuests, AccessOrganizerChat, ViewBudget, All]

  /** The tag as it is stored in the `organizers` column. */
  function PermissionTag(p: Permission): (tag: string)
    ensures tag != ""
  {
    match p
    case EditDetails => "edit_details"
    case ManageSubevents => "manage_subevents"
    case ManageGuests => "manage_guests"
    case AccessOrganizerChat => "access_organizer_chat"
    case ViewBudget => "view_budget"
    case All => "all"
  }

  /** Reading a stored tag back; any other text is not a permission. */
  function ParsePermission(tag: string): (r: Option<Permission>)
    ensures r.Some? ==> PermissionTag(r.value) == tag
  {
    if tag == "edit_details" then Some(EditDetails)
    else if tag == "manage_subevents" then Some(ManageSubevents)
    else if tag == "manage_guests" then Some(ManageGuests)
    else if tag == "access_organizer_chat" then Some(AccessOrganizerChat)
    else if tag == "view_budget" then Some(ViewBudget)
    else if tag == "all" then Some(All)
    else None
  }

  /** The permission set is closed: exactly six tags, each with its own stored text,
      and every tag reads back as itself. */
  lemma PermissionTagsClosed()
    ensures |AllPermissions| == 6
    ensures forall p: Permission :: p in AllPermissions && ParsePermission(PermissionTag(p)) == Some(p)
    ensures forall i, j :: 0 <= i < j < |AllPermissions| ==>
              PermissionTag(AllPermissions[i]) != PermissionTag(AllPermissions[j])
  {
    forall p: Permission
      ensures p in AllPermissions && ParsePermission(PermissionTag(p)) == Some(p)
    {
      match p
      case EditDetails =>
      case ManageSubevents =>
      case ManageGuests =>
      case AccessOrganizerChat =>
      case ViewBudget =>
      case All =>
    }
  }
}
