/** The event store protocol (api/events.ts): the row mapping, the per-user listing,
    share-code lookup and generation, the fetch-transform-write update, and the two
    ways of asking to join an event. The `events` table is a map from id to row held
    by a `Store` object; the two server procedures are function parameters. */
module EventStore {
  import opened Types
  import opened Text
  import opened Permissions
  import SharePassword

  /** A row of the `events` table; the nullable columns are `Option`s. */
  datatype DbEvent = DbEvent(
    id: string,
    shareCode: string,
    sharePassword: Option<string>,
    title: string,
    description: Option<string>,
    startDate: Option<string>,
    endDate: Option<string>,
    isPeriod: bool,
    isDateTbd: bool,
    location: string,
    image: Option<string>,
    creatorId: string,
    organizers: seq<Organizer>,
    category: Category,
    generalGuestsCount: int,
    budget: real,
    subEvents: seq<SubEvent>,
    guests: seq<Guest>,
    isGuestChatEnabled: bool)

  /** An event as `fromDb` produces it: a description is always present and the
      legacy `date` mirrors the start date. */
  predicate NormalForm(e: Event) {
    e.description.Some? && e.date == e.startDate
  }

  /** `fromDb`: null password and description read as "", `date` is recomputed from `start_date`. */
  function FromDb(row: DbEvent): (e: Event)
    ensures NormalForm(e)
    ensures e.sharePassword == row.sharePassword.GetOr("") && e.description == Some(row.description.GetOr(""))
    ensures e.id == row.id && e.shareCode == row.shareCode && e.creatorId == row.creatorId
    ensures e.organizers == row.organizers && e.subEvents == row.subEvents && e.guests == row.guests
  {
    Event(row.id, row.shareCode, row.sharePassword.GetOr(""), row.title, Some(row.description.GetOr("")),
          row.startDate, row.endDate, row.isPeriod, row.isDateTbd, row.location, row.image, row.creatorId,
          row.organizers, row.category, row.generalGuestsCount, row.budget, row.subEvents, row.guests,
          row.isGuestChatEnabled, row.startDate)
  }

  /** `toDb`: absent optional fields become null; `date` is not a column and is dropped. */
  function ToDb(e: Event): (row: DbEvent)
    ensures row.sharePassword == Some(e.sharePassword)
    ensures row.startDate == e.startDate && row.description == e.description
  {
    DbEvent(e.id, e.shareCode, Some(e.sharePassword), e.title, e.description, e.startDate, e.endDate,
            e.isPeriod, e.isDateTBD, e.location, e.image, e.creatorId, e.organizers, e.category,
            e.generalGuestsCount, e.budget, e.subEvents, e.guests, e.isGuestChatEnabled)
  }

  /** An event in normal form survives a write and a read unchanged. */
  lemma FromToDb(e: Event)
    requires NormalForm(e)
    ensures FromDb(ToDb(e)) == e
  {
  }

  /** The legacy `date` is never stored: two events that differ only there write the same row. */
  lemma DateNotStored(e: Event, d: Option<string>)
    ensures ToDb(e.(date := d)) == ToDb(e)
  {
  }

  /** A row with a password and a description survives a read and a write unchanged. */
  lemma ToFromDb(row: DbEvent)
    requires row.sharePassword.Some? && row.description.Some?
    ensures ToDb(FromDb(row)) == row
  {
  }

  // ---------------------------------------------------------------------------
  // Listing the events of a user.

  /** The rows `getByUserId` keeps: created by the user, or listing a confirmed entry of the user. */
  predicate ListedFor(row: DbEvent, userId: string) {
    row.creatorId == userId || exists o :: o in row.organizers && o.userId == userId && o.status == Confirmed
  }

  function ListedRows(rows: seq<DbEvent>, userId: string): (r: seq<DbEvent>)
    ensures forall x :: x in r <==> x in rows && ListedFor(x, userId)
    ensures |r| <= |rows|
  {
    if rows == [] then []
    else if ListedFor(rows[0], userId) then [rows[0]] + ListedRows(rows[1..], userId)
    else ListedRows(rows[1..], userId)
  }

  /** `getByUserId`, given the store's answer to the unfiltered select (`None` for an error). */
  function GetByUserId(response: Option<seq<DbEvent>>, userId: string): (r: seq<Event>)
    ensures response.None? ==> r == []
    ensures response.Some? ==> |r| == |ListedRows(response.value, userId)|
    ensures response.Some? ==> forall row :: row in response.value && ListedFor(row, userId) ==> FromDb(row) in r
    ensures response.Some? ==> forall e :: e in r ==> exists row :: row in response.value && ListedFor(row, userId) && e == FromDb(row)
  {
    match response
    case None => []
    case Some(rows) =>
      var kept := ListedRows(rows, userId);
      var r := seq(|kept|, i requires 0 <= i < |kept| => FromDb(kept[i]));
      assert forall row :: row in kept ==> FromDb(row) in r by {
        forall row | row in kept ensures FromDb(row) in r {
          var i :| 0 <= i < |kept| && kept[i] == row;
          assert r[i] == FromDb(row);
        }
      }
      r
  }

  /** The listing agrees with the detail view: an event is listed for a user exactly when
      the user owns it or has a confirmed organizer entry in it (pending entries do not list it). */
  lemma ListedIffRole(row: DbEvent, userId: string)
    ensures ListedFor(row, userId) <==>
              IsOwner(FromDb(row), userId) || CurrentOrganizer(FromDb(row).organizers, userId).Some?
  {
    var orgs := row.organizers;
    if CurrentOrganizer(orgs, userId).Some? {
      var k :| IsFirstConfirmed(orgs, userId, k);
      assert orgs[k] in orgs;
    } else {
      forall o | o in orgs && o.userId == userId ensures o.status != Confirmed {
        var i :| 0 <= i < |orgs| && orgs[i] == o;
        assert !IsConfirmedFor(orgs[i], userId);
      }
    }
  }

  // ---------------------------------------------------------------------------
  // Share codes.

  /** `code.trim().toUpperCase()`. */
  function NormalizeCode(code: string): (n: string)
    ensures |n| <= |code|
    ensures n == [] || (!IsSpace(n[0]) && !IsSpace(n[|n| - 1]))
    ensures |n| == |Trim(code)| && forall i :: 0 <= i < |n| ==> n[i] == UpperChar(Trim(code)[i])
    ensures forall i :: 0 <= i < |n| ==> !('a' <= n[i] <= 'z')
  {
    var t := Trim(code);
    var n := ToUpper(t);
    assert t != [] ==> n[0] == UpperChar(t[0]) && n[|n| - 1] == UpperChar(t[|t| - 1]) by {
      if t != [] {
        UpperKeepsSpace(t[0]);
        UpperKeepsSpace(t[|t| - 1]);
      }
    }
    n
  }

  /** Case mapping of ASCII letters never creates or removes white space. */
  lemma UpperKeepsSpace(c: char)
    ensures IsSpace(UpperChar(c)) <==> IsSpace(c)
  {
  }

  /** Normalising twice is normalising once. */
  lemma NormalizeIdempotent(code: string)
    ensures NormalizeCode(NormalizeCode(code)) == NormalizeCode(code)
  {
    var n := NormalizeCode(code);
    var t := Trim(code);
    TrimOfTrimmed(n);
    forall i | 0 <= i < |n| ensures UpperChar(n[i]) == n[i] {
      assert n[i] == UpperChar(t[i]);
    }
    assert ToUpper(n) == n;
  }

  /** A code typed in lower case normalises to the same code. */
  lemma NormalizeIgnoresCase(code: string)
    ensures NormalizeCode(ToLower(code)) == NormalizeCode(code)
  {
    var t := Trim(code);
    var lt := Trim(ToLower(code));
    TrimLower(code);
    assert lt == ToLower(t);
    var n := NormalizeCode(code);
    var m := NormalizeCode(ToLower(code));
    assert |m| == |n|;
    forall i | 0 <= i < |m| ensures m[i] == n[i] {
      assert m[i] == UpperChar(lt[i]);
      assert lt[i] == LowerChar(t[i]);
      UpperOfLower(t[i]);
    }
  }

  lemma UpperOfLower(c: char)
    ensures UpperChar(LowerChar(c)) == UpperChar(c)
  {
  }

  /** The ids of the rows holding exactly this code. */
  function MatchingIds(rows: map<string, DbEvent>, code: string): set<string> {
    set id | id in rows && rows[id].shareCode == code
  }

  /** `findByShareCodeOnly` finds an event: the normalised code is not empty and exactly
      one row holds it (`.single()` fails on none and on several). */
  predicate Finds(rows: map<string, DbEvent>, code: string) {
    var n := NormalizeCode(code);
    n != "" && |MatchingIds(rows, n)| == 1
  }

  /** Exactly one row holds this very code. */
  predicate HeldOnce(rows: map<string, DbEvent>, code: string) {
    |MatchingIds(rows, code)| == 1
  }

  /** The table's unique index on the share code: no two rows hold the same code. */
  predicate UniqueCodes(rows: map<string, DbEvent>) {
    forall a, b :: a in rows && b in rows && rows[a].shareCode == rows[b].shareCode ==> a == b
  }

  /** Under the unique index, a code the lookup does not find is held by no row. */
  lemma FreeUnderUniqueCodes(rows: map<string, DbEvent>, code: string)
    requires UniqueCodes(rows) && !HeldOnce(rows, code)
    ensures MatchingIds(rows, code) == {}
  {
    if id :| id in MatchingIds(rows, code) {
      assert MatchingIds(rows, code) == {id};
    }
  }

  /** Without it, a code held by two rows is not found either: `.single()` fails on
      several rows, so such a code counts as free. */
  lemma DuplicateCodeLooksFree(rows: map<string, DbEvent>, a: string, b: string)
    requires a in rows && b in rows && a != b && rows[a].shareCode == rows[b].shareCode
    ensures !HeldOnce(rows, rows[a].shareCode) && MatchingIds(rows, rows[a].shareCode) != {}
  {
    var ids := MatchingIds(rows, rows[a].shareCode);
    assert {a, b} <= ids;
    assert |{a, b}| == 2;
    SubsetSize({a, b}, ids);
  }

  lemma SubsetSize(s: set<string>, t: set<string>)
    requires s <= t
    ensures |s| <= |t|
  {
    assert t == s + (t - s);
  }

  /** The lookup does not depend on the case the code is typed in. */
  lemma FindsIgnoresCase(rows: map<string, DbEvent>, code: string)
    ensures Finds(rows, ToLower(code)) <==> Finds(rows, code)
  {
    NormalizeIgnoresCase(code);
  }

  /** A stored share code typed in lower case (`ab3def7h2k` for `AB3DEF7H2K`) finds its
      event when no other row holds the same code. */
  lemma LowerCaseCodeFinds(rows: map<string, DbEvent>, code: string)
    requires AlphabetText(code) && code != "" && HeldOnce(rows, code)
    ensures Finds(rows, ToLower(code))
  {
    LookupOfAlphabetText(rows, code);
    FindsIgnoresCase(rows, code);
  }

  /** For a code that is already normalised, the lookup finds exactly what the table holds once. */
  lemma FindsNormalCode(rows: map<string, DbEvent>, code: string)
    requires NormalizeCode(code) == code && code != ""
    ensures Finds(rows, code) <==> HeldOnce(rows, code)
  {
  }

  predicate AllDraws(draws: seq<real>) {
    forall i :: 0 <= i < |draws| ==> SharePassword.IsDraw(draws[i])
  }

  /** The code built in attempt `k`, from draws `10k .. 10k + 9`; `generateUniqueShareCode`
      writes out the same 32-character alphabet as the share-password generator. */
  function DrawCode(draws: seq<real>, k: nat): (code: string)
    requires 10 * k + 10 <= |draws| && AllDraws(draws)
    ensures |code| == 10
  {
    SharePassword.PickAll(draws[10 * k .. 10 * k + 10])
  }

  /** Character `i` of the code of attempt `k` is picked by draw `10k + i`. */
  lemma DrawCodeAt(draws: seq<real>, k: nat, i: nat)
    requires 10 * k + 10 <= |draws| && AllDraws(draws) && i < 10
    ensures DrawCode(draws, k)[i] == SharePassword.Pick(draws[10 * k + i])
  {
    SharePassword.PickAllAt(draws[10 * k .. 10 * k + 10], i);
  }

  /** Every character of a drawn code comes from the share alphabet. */
  lemma DrawnCodeInAlphabet(draws: seq<real>, k: nat)
    requires 10 * k + 10 <= |draws| && AllDraws(draws)
    ensures forall i :: 0 <= i < 10 ==> DrawCode(draws, k)[i] in SharePassword.Alphabet
  {
    forall i | 0 <= i < 10 ensures DrawCode(draws, k)[i] in SharePassword.Alphabet {
      DrawCodeAt(draws, k, i);
      SharePassword.PickInAlphabet(draws[10 * k + i]);
    }
  }

  /** Text made of share-alphabet characters only. */
  predicate AlphabetText(code: string) {
    forall i :: 0 <= i < |code| ==> code[i] in SharePassword.Alphabet
  }

  /** Such text needs no normalisation: it has no white space and no lower-case letter. */
  lemma AlphabetTextIsNormal(code: string)
    requires AlphabetText(code)
    ensures NormalizeCode(code) == code
  {
    SharePassword.AlphabetShape();
    forall i | 0 <= i < |code| ensures !IsSpace(code[i]) && UpperChar(code[i]) == code[i] {
      assert code[i] in SharePassword.Alphabet;
    }
    TrimOfTrimmed(code);
  }

  /** The lookup of non-empty alphabet text finds an event exactly when one row holds it. */
  lemma LookupOfAlphabetText(rows: map<string, DbEvent>, code: string)
    requires AlphabetText(code) && code != ""
    ensures Finds(rows, code) <==> HeldOnce(rows, code)
  {
    AlphabetTextIsNormal(code);
    assert NormalizeCode(code) != "";
    FindsNormalCode(rows, code);
  }

  /** The lookup of a drawn code finds an event exactly when one row holds that code. */
  lemma LookupOfDrawnCode(rows: map<string, DbEvent>, draws: seq<real>, k: nat)
    requires 10 * k + 10 <= |draws| && AllDraws(draws)
    ensures Finds(rows, DrawCode(draws, k)) <==> HeldOnce(rows, DrawCode(draws, k))
  {
    DrawnCodeInAlphabet(draws, k);
    LookupOfAlphabetText(rows, DrawCode(draws, k));
  }

  /** The fallback: the UUID without dashes, first 10 characters, upper-cased. */
  function FallbackCode(uuid: string): (code: string)
    ensures |code| <= 10 && forall c :: c in code ==> c != '-'
    ensures var hex := Without(uuid, '-');
      && |code| == (if |hex| <= 10 then |hex| else 10)
      && forall i :: 0 <= i < |code| ==> code[i] == UpperChar(hex[i])
    ensures forall i :: 0 <= i < |code| ==> !('a' <= code[i] <= 'z')
  {
    var hex := Without(uuid, '-');
    ToUpper(if |hex| <= 10 then hex else hex[..10])
  }

  /** The fallback is not drawn from the share alphabet: a UUID that starts with `0`
      gives a code starting with `0`, a character the alphabet leaves out. */
  lemma FallbackMayUseZero(uuid: string)
    requires |uuid| > 0 && uuid[0] == '0'
    ensures FallbackCode(uuid)[0] == '0' && '0' !in SharePassword.Alphabet
  {
    SharePassword.AlphabetIsUnambiguous();
    assert Without(uuid, '-') == ['0'] + Without(uuid[1..], '-');
  }

  /** One attempt of `generateUniqueShareCode`: ten characters, one per draw. */
  method DrawAttempt(draws: seq<real>, k: nat) returns (code: string)
    requires 10 * k + 10 <= |draws| && AllDraws(draws)
    ensures code == DrawCode(draws, k)
  {
    code := "";
    var i := 0;
    while i < 10
      invariant 0 <= i <= 10
      invariant |code| == i
      invariant forall m :: 0 <= m < i ==> code[m] == SharePassword.Pick(draws[10 * k + m])
    {
      code := code + [SharePassword.Pick(draws[10 * k + i])];
      i := i + 1;
    }
    forall m | 0 <= m < 10 ensures code[m] == DrawCode(draws, k)[m] {
      DrawCodeAt(draws, k, m);
    }
  }

  const NotFound: string := "Événement introuvable"
  const WriteFailed: string := "Échec de mise à jour"

  /** The `events` table, keyed by event id. */
  class Store {
    var rows: map<string, DbEvent>

    constructor(initial: map<string, DbEvent>)
      ensures rows == initial
    {
      rows := initial;
    }

    /** `findByShareCodeOnly`: the single row holding the normalised code; no lookup for an
        empty code, and no result when the code is held by no row or by several. */
    method FindByShareCodeOnly(code: string) returns (r: Option<Event>)
      ensures r.Some? <==> Finds(rows, code)
      ensures r.Some? ==> exists id :: id in rows && rows[id].shareCode == NormalizeCode(code) && r.value == FromDb(rows[id])
    {
      var n := NormalizeCode(code);
      if n == "" {
        return None;
      }
      var ids := set id | id in rows && rows[id].shareCode == n;
      if |ids| == 1 {
        var id :| id in ids;
        return Some(FromDb(rows[id]));
      }
      return None;
    }

    /** `findByShareCodeAndPassword`: the event found by code, when its stored password and
        the entered one agree after trimming (case matters). */
    method FindByShareCodeAndPassword(code: string, password: string) returns (r: Option<Event>)
      ensures r.Some? ==> exists id :: id in rows && rows[id].shareCode == NormalizeCode(code) && r.value == FromDb(rows[id])
      ensures r.Some? ==> Trim(r.value.sharePassword) == Trim(password)
      ensures r.None? ==> !Finds(rows, code)
                          || forall id :: id in MatchingIds(rows, NormalizeCode(code)) ==>
                               Trim(FromDb(rows[id]).sharePassword) != Trim(password)
    {
      var found := FindByShareCodeOnly(code);
      if found.None? {
        return None;
      }
      var stored := Trim(found.value.sharePassword);
      var entered := Trim(password);
      if stored != entered {
        var n := NormalizeCode(code);
        forall id | id in MatchingIds(rows, n) ensures Trim(FromDb(rows[id]).sharePassword) != Trim(password) {
          var id' :| id' in rows && rows[id'].shareCode == n && found.value == FromDb(rows[id']);
          assert id' in MatchingIds(rows, n);
          SingletonMembers(MatchingIds(rows, n), id, id');
        }
        return None;
      }
      return found;
    }

    /** `generateUniqueShareCode`: up to 50 drawn codes of 10 characters, the first one
        that the lookup does not find; the UUID fallback when all 50 are found. */
    method GenerateUniqueShareCode(draws: seq<real>, uuid: string) returns (code: string)
      requires |draws| >= 500 && AllDraws(draws)
      ensures (exists k :: 0 <= k < 50 && code == DrawCode(draws, k) && !HeldOnce(rows, code)
                             && forall j :: 0 <= j < k ==> HeldOnce(rows, DrawCode(draws, j)))
              || (code == FallbackCode(uuid) && forall j :: 0 <= j < 50 ==> HeldOnce(rows, DrawCode(draws, j)))
      ensures UniqueCodes(rows) ==> code == FallbackCode(uuid) || MatchingIds(rows, code) == {}
    {
      var attempt := 0;
      while attempt < 50
        invariant 0 <= attempt <= 50
        invariant forall j :: 0 <= j < attempt ==> HeldOnce(rows, DrawCode(draws, j))
      {
        var taken;
        code, taken := TryAttempt(draws, attempt);
        if !taken {
          if UniqueCodes(rows) {
            FreeUnderUniqueCodes(rows, code);
          }
          return code;
        }
        attempt := attempt + 1;
      }
      code := FallbackCode(uuid);
    }

    /** One attempt of that loop: the drawn code, and whether the lookup found it. */
    method TryAttempt(draws: seq<real>, k: nat) returns (code: string, taken: bool)
      requires 10 * k + 10 <= |draws| && AllDraws(draws)
      ensures code == DrawCode(draws, k)
      ensures taken <==> HeldOnce(rows, code)
    {
      code := DrawAttempt(draws, k);
      var existing := FindByShareCodeOnly(code);
      LookupOfDrawnCode(rows, draws, k);
      taken := existing.Some?;
    }

    /** `updateAtomic`: fetch the row, apply the transform to its mapping, write the whole
        record back and return the mapping of the row written. Either failure leaves the
        store as it was. */
    method UpdateAtomic(eventId: string, update: Event -> Event, writeFailure: Option<Option<string>>)
      returns (r: Result<Event>)
      modifies this
      ensures eventId !in old(rows) ==> r == Err(NotFound) && rows == old(rows)
      ensures eventId in old(rows) && writeFailure.Some? ==>
                r == Err(writeFailure.value.GetOr(WriteFailed)) && rows == old(rows)
      ensures eventId in old(rows) && writeFailure.None? ==>
                rows == old(rows)[eventId := ToDb(update(FromDb(old(rows)[eventId])))]
                && r == Ok(FromDb(rows[eventId]))
    {
      if eventId !in rows {
        return Err(NotFound);
      }
      var updated := update(FromDb(rows[eventId]));
      var payload := ToDb(updated);
      if writeFailure.Some? {
        return Err(writeFailure.value.GetOr(WriteFailed));
      }
      rows := rows[eventId := payload];
      return Ok(FromDb(payload));
    }

    /** `requestOrganizerJoin`: the join transform through the atomic update; the error
        message when it throws. */
    method RequestOrganizerJoin(eventId: string, user: User, writeFailure: Option<Option<string>>)
      returns (err: Option<string>)
      modifies this
      ensures eventId !in old(rows) ==> err == Some(NotFound) && rows == old(rows)
      ensures eventId in old(rows) && writeFailure.Some? ==>
                err == Some(writeFailure.value.GetOr(WriteFailed)) && rows == old(rows)
      ensures eventId in old(rows) && writeFailure.None? ==>
                err.None? && rows == old(rows)[eventId := ToDb(JoinRequest(FromDb(old(rows)[eventId]), user))]
    {
      var r := UpdateAtomic(eventId, e => JoinRequest(e, user), writeFailure);
      err := if r.Err? then Some(r.message) else None;
    }
  }

  lemma SingletonMembers(s: set<string>, a: string, b: string)
    requires |s| == 1 && a in s && b in s
    ensures a == b
  {
    var t := s - {a};
    assert s == t + {a};
    assert |t| == 0;
    assert b !in t;
  }

  /** Two clients update one row through fetch, transform and write. When the second
      fetches only after the first has written, it works on the first one's result, so
      the row ends up with both updates composed. (When both fetch first, the second
      write carries `g` of the original row alone; `EventTransforms.LostGuestUpdate`
      shows what that loses.) */
  lemma InterleavedUpdates(row: DbEvent, f: Event -> Event, g: Event -> Event)
    requires forall e :: NormalForm(e) ==> NormalForm(f(e))
    ensures var afterF := ToDb(f(FromDb(row)));
            ToDb(g(FromDb(afterF))) == ToDb(g(f(FromDb(row))))
  {
    FromToDb(f(FromDb(row)));
  }

  // ---------------------------------------------------------------------------
  // Joining.

  /** The entry a join request appends. */
  function PendingEntry(user: User): Organizer {
    Organizer(user.id, user.firstName, user.lastName, Pending, [AccessOrganizerChat], None)
  }

  predicate HasEntry(e: Event, userId: string) {
    exists o :: o in e.organizers && o.userId == userId
  }

  /** The transform of `requestOrganizerJoin`: a pending entry with chat access for a user
      who is neither the creator nor already listed (in any status). */
  function JoinRequest(e: Event, user: User): (r: Event)
    ensures r == e.(organizers := r.organizers)
    ensures e.creatorId == user.id || HasEntry(e, user.id) ==> r == e
    ensures e.creatorId != user.id && !HasEntry(e, user.id) ==> r.organizers == e.organizers + [PendingEntry(user)]
    ensures NormalForm(e) ==> NormalForm(r)
  {
    if !HasEntry(e, user.id) && e.creatorId != user.id
    then e.(organizers := e.organizers + [PendingEntry(user)])
    else e
  }

  /** The number of entries of a user. */
  function EntryCount(orgs: seq<Organizer>, userId: string): (n: nat)
    ensures n == 0 <==> forall o :: o in orgs ==> o.userId != userId
  {
    if orgs == [] then 0
    else (if orgs[0].userId == userId then 1 else 0) + EntryCount(orgs[1..], userId)
  }

  lemma {:induction false} EntryCountAppend(a: seq<Organizer>, b: seq<Organizer>, userId: string)
    ensures EntryCount(a + b, userId) == EntryCount(a, userId) + EntryCount(b, userId)
  {
    if a == [] {
      assert a + b == b;
    } else {
      assert (a + b)[1..] == a[1..] + b;
      EntryCountAppend(a[1..], b, userId);
    }
  }

  /** Asking twice is asking once; the creator is never added; a user without an entry
      ends up with exactly one, and it grants no permission. */
  lemma JoinRequestProperties(e: Event, user: User, p: Permission)
    ensures JoinRequest(JoinRequest(e, user), user) == JoinRequest(e, user)
    ensures EntryCount(JoinRequest(e, user).organizers, e.creatorId) == EntryCount(e.organizers, e.creatorId)
    ensures e.creatorId != user.id && !HasEntry(e, user.id) ==>
              EntryCount(JoinRequest(e, user).organizers, user.id) == 1
              && !HasPermission(JoinRequest(e, user), user.id, p)
  {
    var r := JoinRequest(e, user);
    if e.creatorId != user.id && !HasEntry(e, user.id) {
      assert PendingEntry(user) in r.organizers;
      EntryCountAppend(e.organizers, [PendingEntry(user)], user.id);
      EntryCountAppend(e.organizers, [PendingEntry(user)], e.creatorId);
      assert EntryCount([PendingEntry(user)], user.id) == 1;
      PendingGrantsNothing(r, user.id, p);
    }
  }

  const MissingCredentials: string := "Saisis la clé et le mot de passe."
  const WrongCredentials: string := "Clé ou mot de passe incorrect."
  const RequestNotSent: string := "Impossible d'envoyer la demande."

  datatype JoinOutcome = JoinOutcome(success: bool, error: Option<string>)

  /** `requestJoinByCodeAndPassword`. `findEventId` stands for the `get_event_id_for_join`
      procedure (an error, or the id it found, if any); `addPendingOrganizer` for
      `add_pending_organizer` (`None` when it succeeds, else the error and its message, if any). */
  function RequestJoinByCodeAndPassword(code: string, password: string, user: User,
                                        findEventId: (string, string) -> Result<Option<string>>,
                                        addPendingOrganizer: (string, string, string) -> Option<Option<string>>)
    : (r: JoinOutcome)
    ensures r.success <==> r.error.None?
    ensures Trim(code) == "" || Trim(password) == "" ==> r == JoinOutcome(false, Some(MissingCredentials))
    ensures Trim(code) != "" && Trim(password) != "" ==>
              var found := findEventId(Trim(code), Trim(password));
              && (found.Err? || found.value.None? || found.value.value == "" ==>
                    r == JoinOutcome(false, Some(WrongCredentials)))
              && (found.Ok? && found.value.Some? && found.value.value != "" ==>
                    var added := addPendingOrganizer(found.value.value, user.firstName, user.lastName);
                    r == if added.None? then JoinOutcome(true, None)
                         else JoinOutcome(false, Some(added.value.GetOr(RequestNotSent))))
  {
    var c := Trim(code);
    var pw := Trim(password);
    if c == "" || pw == "" then JoinOutcome(false, Some(MissingCredentials))
    else
      match findEventId(c, pw)
      case Err(_) => JoinOutcome(false, Some(WrongCredentials))
      case Ok(found) =>
        if found.None? || found.value == "" then JoinOutcome(false, Some(WrongCredentials))
        else
          match addPendingOrganizer(found.value, user.firstName, user.lastName)
          case None => JoinOutcome(true, None)
          case Some(msg) => JoinOutcome(false, Some(msg.GetOr(RequestNotSent)))
  }

  /** Blank credentials are refused before any procedure is consulted: the outcome does
      not depend on what the procedures would answer. */
  lemma BlankCredentialsSkipLookup(code: string, password: string, user: User,
                                   f1: (string, string) -> Result<Option<string>>,
                                   a1: (string, string, string) -> Option<Option<string>>,
                                   f2: (string, string) -> Result<Option<string>>,
                                   a2: (string, string, string) -> Option<Option<string>>)
    requires Trim(code) == "" || Trim(password) == ""
    ensures RequestJoinByCodeAndPassword(code, password, user, f1, a1)
            == RequestJoinByCodeAndPassword(code, password, user, f2, a2)
  {
  }
}
