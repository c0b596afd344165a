/** Sign-up and sign-in (api/auth.ts): the profile built from an authentication
    account, and the outcome of `register` and `login`. The authentication
    service's answers, the profile store's answers and the clock are inputs. */
module AuthApi {
  import opened Types
  import opened Text
  import ProfilesApi

  /** The account's `user_metadata`: each key may be absent (or null). */
  datatype Metadata = Metadata(
    firstName: Option<string>,
    lastName: Option<string>,
    fullName: Option<string>,
    name: Option<string>,
    phone: Option<string>,
    street: Option<string>,
    city: Option<string>,
    zipCode: Option<string>,
    avatarUrl: Option<string>)

  const NoMetadata := Metadata(None, None, None, None, None, None, None, None, None)

  /** An account of the authentication service. */
  datatype AuthUser = AuthUser(id: string, email: Option<string>, userMetadata: Option<Metadata>)

  const DefaultFirstName := "Utilisateur"

  predicate IsBlank(c: char) { c == ' ' }

  /** `String(fullName).split(' ').filter(Boolean)`: the words between single spaces. */
  function NameParts(fullName: string): (parts: seq<string>)
    ensures forall k :: 0 <= k < |parts| ==> parts[k] != "" && ' ' !in parts[k]
  {
    var pieces := Split(fullName, IsBlank);
    NonEmptyMembers(pieces);
    var parts := NonEmpty(pieces);
    assert forall k :: 0 <= k < |parts| ==> parts[k] in pieces;
    parts
  }

  /** `meta.full_name ?? meta.name ?? ''`. */
  function FullNameOf(meta: Metadata): string {
    if meta.fullName.Some? then meta.fullName.value else meta.name.GetOr("")
  }

  /** `buildProfileFromAuthUser`: the stored names when present, otherwise the
      first word of the full name and the other words joined by single spaces.
      `now` is the creation time stamp. */
  function BuildProfile(u: AuthUser, now: string): (p: User)
    ensures p.id == u.id && p.email == u.email.GetOr("") && p.createdAt == now
  {
    var meta := u.userMetadata.GetOr(NoMetadata);
    var parts := NameParts(FullNameOf(meta));
    var firstName := if meta.firstName.Some? then meta.firstName.value
                     else if parts != [] then parts[0] else DefaultFirstName;
    var lastName := if meta.lastName.Some? then meta.lastName.value
                    else if parts != [] then Join(parts[1..], " ") else "";
    User(u.id, u.email.GetOr(""), firstName, lastName, meta.phone, meta.street, meta.city,
         meta.zipCode, now, meta.avatarUrl)
  }

  /** Single-space words are split back out of their join. */
  lemma NamePartsOfJoin(words: seq<string>)
    requires forall k :: 0 <= k < |words| ==> words[k] != "" && ' ' !in words[k]
    ensures NameParts(Join(words, " ")) == words
  {
    if words == [] {
      assert Split("", IsBlank) == [""];
    } else {
      forall k | 0 <= k < |words| ensures forall i :: 0 <= i < |words[k]| ==> !IsBlank(words[k][i]) {
        forall i | 0 <= i < |words[k]| ensures !IsBlank(words[k][i]) {
          assert words[k][i] in words[k];
        }
      }
      SplitJoin(words, ' ', IsBlank);
      NonEmptyOfNonEmpty(words);
    }
  }

  lemma {:induction false} NonEmptyOfNonEmpty(words: seq<string>)
    requires forall k :: 0 <= k < |words| ==> words[k] != ""
    ensures NonEmpty(words) == words
  {
    if words != [] {
      NonEmptyOfNonEmpty(words[1..]);
    }
  }

  /** Without stored names, the first name is one word (the default when the full
      name has none) and the last name is the remaining words joined by single
      spaces: splitting it again gives exactly those words, and it is empty for a
      name of one word. */
  lemma BuiltNamesFromFullName(u: AuthUser, now: string)
    requires u.userMetadata.GetOr(NoMetadata).firstName.None?
    requires u.userMetadata.GetOr(NoMetadata).lastName.None?
    ensures var parts := NameParts(FullNameOf(u.userMetadata.GetOr(NoMetadata)));
      var p := BuildProfile(u, now);
      && p.firstName != "" && ' ' !in p.firstName
      && (parts == [] ==> p.firstName == DefaultFirstName && p.lastName == "")
      && (parts != [] ==> p.firstName == parts[0] && NameParts(p.lastName) == parts[1..])
      && (p.lastName == "" <==> |parts| <= 1)
  {
    var parts := NameParts(FullNameOf(u.userMetadata.GetOr(NoMetadata)));
    var p := BuildProfile(u, now);
    if parts != [] {
      var rest := parts[1..];
      assert forall k :: 0 <= k < |rest| ==> rest[k] == parts[k + 1];
      NamePartsOfJoin(rest);
      if |rest| > 0 {
        assert NameParts(p.lastName) != [];
      }
    }
  }

  /** A full name of two words (an account created with a provider) gives its
      first word as the first name and its second as the last name. */
  lemma TwoWordFullName(id: string, first: string, last: string, now: string)
    requires first != "" && ' ' !in first && last != "" && ' ' !in last
    ensures var p := BuildProfile(AuthUser(id, None, Some(NoMetadata.(fullName := Some(first + " " + last)))), now);
      p.firstName == first && p.lastName == last && p.email == ""
  {
    var words := [first, last];
    assert Join(words, " ") == first + " " + last;
    NamePartsOfJoin(words);
    assert words[1..] == [last];
  }

  // ---------------------------------------------------------------------------
  // register

  /** The authentication service's answer to `signUp`. */
  datatype SignUpReply = SignUpFailed(message: string) | SignedUp(userId: Option<string>, hasSession: bool)

  const IncompleteSignUp := "Création du compte incomplète."

  /** The metadata `register` attaches to the new account. */
  function SignUpMetadata(d: RegisterData): (meta: Metadata)
    ensures meta.firstName == Some(d.firstName) && meta.lastName == Some(d.lastName)
    ensures meta.fullName == Some(Trim(d.firstName + " " + d.lastName))
  {
    Metadata(Some(d.firstName), Some(d.lastName), Some(Trim(d.firstName + " " + d.lastName)), None,
             Some(d.phone.GetOr("")), Some(d.street.GetOr("")), Some(d.city.GetOr("")),
             Some(d.zipCode.GetOr("")), None)
  }

  /** The profile `register` stores and returns: the form's fields, the account's
      id, and the creation time stamp. */
  function RegisteredProfile(d: RegisterData, id: string, now: string): (p: User)
    ensures p.id == id && p.email == d.email && p.createdAt == now
    ensures p.firstName == d.firstName && p.lastName == d.lastName
    ensures p.phone == d.phone && p.street == d.street && p.city == d.city && p.zipCode == d.zipCode
    ensures p.avatar.None?
  {
    User(id, d.email, d.firstName, d.lastName, d.phone, d.street, d.city, d.zipCode, now, None)
  }

  /** An id that is present and non-empty. */
  predicate HasId(userId: Option<string>) {
    userId.Some? && userId.value != ""
  }

  /** `register`: a refused sign-up reports the service's message; an account
      without an id is an incomplete sign-up; an account without a session waits
      for the e-mail confirmation; otherwise the profile is returned. The result of
      the profile write is not looked at. */
  function Register(d: RegisterData, reply: SignUpReply, now: string): (r: AuthResponse)
    ensures r.success <==> reply.SignedUp? && HasId(reply.userId)
    ensures reply.SignUpFailed? ==> r.error == Some(reply.message)
    ensures reply.SignedUp? && !HasId(reply.userId) ==> r.error == Some(IncompleteSignUp)
    ensures r.success ==> r.error.None?
    ensures r.user.Some? <==> r.success && reply.hasSession
    ensures r.user.Some? ==> r.user.value == RegisteredProfile(d, reply.userId.value, now)
    ensures r.needsEmailConfirmation == Some(true) <==> r.success && !reply.hasSession
  {
    match reply
    case SignUpFailed(message) => AuthResponse(false, None, Some(message), None)
    case SignedUp(userId, hasSession) =>
      if !HasId(userId) then AuthResponse(false, None, Some(IncompleteSignUp), None)
      else if !hasSession then AuthResponse(true, None, None, Some(true))
      else AuthResponse(true, Some(RegisteredProfile(d, userId.value, now)), None, None)
  }

  /** The profile rebuilt from the sign-up metadata (the one `login` writes when
      no profile is stored) has the registered names, e-mail address and id; the
      address fields the form left out come back as empty texts. */
  lemma RebuiltAfterSignUp(d: RegisterData, id: string, now: string)
    ensures BuildProfile(AuthUser(id, Some(d.email), Some(SignUpMetadata(d))), now)
            == RegisteredProfile(d, id, now).(phone := Some(d.phone.GetOr("")), street := Some(d.street.GetOr("")),
                                              city := Some(d.city.GetOr("")), zipCode := Some(d.zipCode.GetOr("")))
  {
  }

  // ---------------------------------------------------------------------------
  // login

  /** The authentication service's answer to `signInWithPassword`. */
  datatype SignInReply = SignInFailed(message: string) | SignedIn(user: Option<AuthUser>)

  const InvalidSession := "Session invalide."

  /** `login`: a refused sign-in reports the service's message; an answer without
      an account id is an invalid session; otherwise the stored profile, or when
      there is none the profile built from the account and written to the store.
      `table` is the profile store's answer to the read (`None` for an error) and
      `written` its answer to the write. */
  function Login(reply: SignInReply, table: Option<seq<ProfilesApi.ProfileRow>>,
                 written: Option<ProfilesApi.ProfileRow>, now: string): (r: AuthResponse)
    ensures r.success <==> reply.SignedIn? && reply.user.Some? && reply.user.value.id != ""
    ensures reply.SignInFailed? ==> r.error == Some(reply.message)
    ensures reply.SignedIn? && !r.success ==> r.error == Some(InvalidSession)
    ensures r.success ==> r.user.Some? && r.error.None?
    ensures r.success && ProfilesApi.GetById(table, reply.user.value.id).Some? ==>
              r.user == ProfilesApi.GetById(table, reply.user.value.id)
  {
    match reply
    case SignInFailed(message) => AuthResponse(false, None, Some(message), None)
    case SignedIn(user) =>
      if user.None? || user.value.id == "" then AuthResponse(false, None, Some(InvalidSession), None)
      else
        var stored := ProfilesApi.GetById(table, user.value.id);
        var profile := if stored.Some? then stored.value
                       else ProfilesApi.Upsert(BuildProfile(user.value, now), written);
        AuthResponse(true, Some(profile), None, None)
  }

  /** A first sign-in, with no stored profile, returns the profile built from the
      account when the write fails or when the store echoes the written row; a
      later sign-in, once that row is stored, returns the same profile. */
  lemma FirstLoginFallback(u: AuthUser, rows: seq<ProfilesApi.ProfileRow>, now: string)
    requires u.id != "" && ProfilesApi.UniqueIds(rows)
    requires ProfilesApi.RowsWithId(rows, u.id) == []
    ensures var built := BuildProfile(u, now);
      && Login(SignedIn(Some(u)), Some(rows), None, now).user == Some(built)
      && Login(SignedIn(Some(u)), Some(rows), Some(ProfilesApi.ToDb(built)), now).user == Some(built)
      && Login(SignedIn(Some(u)), Some(ProfilesApi.StoreUpsert(rows, ProfilesApi.ToDb(built))), None, now).user
         == Some(built)
  {
    var built := BuildProfile(u, now);
    ProfilesApi.UpsertEcho(built);
    ProfilesApi.UpsertThenGet(rows, built);
  }
}
