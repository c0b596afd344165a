/** The `profiles` table as the application reads and writes it
    (api/profiles.ts). The store's answers are inputs: a select gives the table's
    rows or an error, an upsert gives back the written row or nothing. */
module ProfilesApi {
  import opened Types

  /** A stored row; the optional fields are nullable columns. */
  datatype ProfileRow = ProfileRow(
    id: string,
    email: string,
    firstName: string,
    lastName: string,
    phone: Option<string>,
    street: Option<string>,
    city: Option<string>,
    zipCode: Option<string>,
    avatarUrl: Option<string>,
    createdAt: string)

  /** `fromDb`: a null column becomes an absent field. */
  function FromDb(row: ProfileRow): User {
    User(row.id, row.email, row.firstName, row.lastName, row.phone, row.street,
         row.city, row.zipCode, row.createdAt, row.avatarUrl)
  }

  /** `toDb`: an absent field becomes a null column. Writing a profile and reading
      it back gives the same profile. */
  function ToDb(profile: User): (row: ProfileRow)
    ensures FromDb(row) == profile
    ensures row.id == profile.id
  {
    ProfileRow(profile.id, profile.email, profile.firstName, profile.lastName, profile.phone,
               profile.street, profile.city, profile.zipCode, profile.avatar, profile.createdAt)
  }

  /** Reading a row and writing it back gives the same row: the mapping only renames fields. */
  lemma ToFromDb(row: ProfileRow)
    ensures ToDb(FromDb(row)) == row
    ensures FromDb(row).id == row.id && FromDb(row).avatar == row.avatarUrl
  {
  }

  /** The rows whose id is `id`, in table order. */
  function RowsWithId(rows: seq<ProfileRow>, id: string): (r: seq<ProfileRow>)
    ensures |r| <= |rows|
    ensures forall row :: row in r <==> row in rows && row.id == id
  {
    if rows == [] then []
    else
      var rest := RowsWithId(rows[1..], id);
      assert forall row :: row in rows <==> row == rows[0] || row in rows[1..];
      if rows[0].id == id then [rows[0]] + rest else rest
  }

  /** `getById(id)`: `select … eq('id', id).maybeSingle()` over the table's rows
      (`None` when the store reports an error). No row, more than one row and an
      error all give no profile; a single row is mapped. */
  function GetById(table: Option<seq<ProfileRow>>, id: string): (r: Option<User>)
    ensures table.None? ==> r.None?
    ensures table.Some? && RowsWithId(table.value, id) == [] ==> r.None?
    ensures r.Some? ==> r.value.id == id && ToDb(r.value) in table.value
    ensures table.Some? && |RowsWithId(table.value, id)| == 1 ==> r == Some(FromDb(RowsWithId(table.value, id)[0]))
    ensures table.Some? && |RowsWithId(table.value, id)| > 1 ==> r.None?
  {
    if table.None? then None
    else
      var matching := RowsWithId(table.value, id);
      if |matching| == 1 then
        ToFromDb(matching[0]);
        Some(FromDb(matching[0]))
      else None
  }

  /** `upsert(profile)`: the store's answer is the written row, or `None` when the
      write failed or returned nothing; a failure hands back the profile as given. */
  function Upsert(profile: User, written: Option<ProfileRow>): (r: User)
    ensures written.None? ==> r == profile
    ensures written.Some? ==> ToDb(r) == written.value
  {
    if written.None? then profile
    else
      ToFromDb(written.value);
      FromDb(written.value)
  }

  /** A store that writes the row it was given returns the profile unchanged. */
  lemma UpsertEcho(profile: User)
    ensures Upsert(profile, Some(ToDb(profile))) == profile
  {
  }

  /** The table after `upsert(…, { onConflict: 'id' })`: every row with the id is
      replaced, or the row is added when none has it. */
  function StoreUpsert(rows: seq<ProfileRow>, row: ProfileRow): seq<ProfileRow> {
    if RowsWithId(rows, row.id) == [] then rows + [row]
    else seq(|rows|, i requires 0 <= i < |rows| => if rows[i].id == row.id then row else rows[i])
  }

  /** Ids are unique in a table the upsert keeps. */
  predicate UniqueIds(rows: seq<ProfileRow>) {
    forall i, j :: 0 <= i < j < |rows| ==> rows[i].id != rows[j].id
  }

  lemma {:induction false} RowsWithUniqueId(rows: seq<ProfileRow>, i: int)
    requires UniqueIds(rows) && 0 <= i < |rows|
    ensures RowsWithId(rows, rows[i].id) == [rows[i]]
    decreases |rows|
  {
    if i == 0 {
      NoRowsWithId(rows[1..], rows[0].id);
    } else {
      RowsWithUniqueId(rows[1..], i - 1);
    }
  }

  lemma {:induction false} NoRowsWithId(rows: seq<ProfileRow>, id: string)
    requires forall k :: 0 <= k < |rows| ==> rows[k].id != id
    ensures RowsWithId(rows, id) == []
    decreases |rows|
  {
    if rows != [] {
      NoRowsWithId(rows[1..], id);
    }
  }

  /** In a table with unique ids, every stored profile is found by its id. */
  lemma GetByIdFindsStored(rows: seq<ProfileRow>, i: int)
    requires UniqueIds(rows) && 0 <= i < |rows|
    ensures GetById(Some(rows), rows[i].id) == Some(FromDb(rows[i]))
  {
    RowsWithUniqueId(rows, i);
  }

  /** After a successful upsert of a profile into a table with unique ids, the
      ids stay unique and `getById` reads the profile back. */
  lemma UpsertThenGet(rows: seq<ProfileRow>, profile: User)
    requires UniqueIds(rows)
    ensures UniqueIds(StoreUpsert(rows, ToDb(profile)))
    ensures GetById(Some(StoreUpsert(rows, ToDb(profile))), profile.id) == Some(profile)
  {
    var row := ToDb(profile);
    var after := StoreUpsert(rows, row);
    if RowsWithId(rows, row.id) == [] {
      forall k | 0 <= k < |rows| ensures rows[k].id != row.id {
        assert rows[k] in rows;
      }
      assert after[|rows|] == row;
      RowsWithUniqueId(after, |rows|);
    } else {
      var r0 := RowsWithId(rows, row.id)[0];
      assert r0 in RowsWithId(rows, row.id);
      var i :| 0 <= i < |rows| && rows[i] == r0;
      assert after[i] == row;
      RowsWithUniqueId(after, i);
    }
  }
}
