/** The guest export (utils/exportGuests.ts): the header line and one row per
    guest, with the head-count, one attendance cell per sub-event and their
    total, and the default file name. Writing the spreadsheet or the PDF is left
    out; `buildExportRows` repeats the table's `getGuestCount`/`getAttendance`
    (utils/exportGuests.ts:7-15), which are the functions of `GuestsTable`. */
module ExportGuests {
  import opened Types
  import opened GuestsTable

  /** A cell is either text or a number. */
  datatype Cell = TextCell(text: string) | NumberCell(n: int)

  /** The six leading columns. */
  const FixedHeaders: seq<string> := ["Prénom", "Nom", "Email", "Téléphone", "Statut", "Nb personnes"]

  const TotalHeader: string := "Total présents"

  /** The column title of a sub-event; an untitled one is a "Séquence". */
  function SubEventHeader(s: SubEvent): (h: string)
    ensures s.title == "" ==> h == "Séquence (présents)"
    ensures s.title != "" ==> h == s.title + " (présents)"
  {
    (if s.title == "" then "Séquence" else s.title) + " (présents)"
  }

  function SubEventHeaders(subEvents: seq<SubEvent>): (r: seq<string>)
    ensures |r| == |subEvents|
    ensures forall i :: 0 <= i < |subEvents| ==> r[i] == SubEventHeader(subEvents[i])
  {
    seq(|subEvents|, i requires 0 <= i < |subEvents| => SubEventHeader(subEvents[i]))
  }

  /** The header line: the six fixed columns, one per sub-event, then the total. */
  function Headers(subEvents: seq<SubEvent>): (r: seq<string>)
    ensures |r| == |FixedHeaders| + |subEvents| + 1
    ensures r[..|FixedHeaders|] == FixedHeaders
    ensures forall i :: 0 <= i < |subEvents| ==> r[|FixedHeaders| + i] == SubEventHeader(subEvents[i])
    ensures r[|r| - 1] == TotalHeader
  {
    FixedHeaders + SubEventHeaders(subEvents) + [TotalHeader]
  }

  /** The status as stored. */
  function StatusText(s: GuestStatus): string {
    match s
    case GuestPending => "pending"
    case GuestConfirmed => "confirmed"
    case GuestDeclined => "declined"
  }

  /** The attendance cells of a guest, one per sub-event, linked or not. */
  function AttendanceCells(g: Guest, subEvents: seq<SubEvent>): (r: seq<Cell>)
    ensures |r| == |subEvents|
    ensures forall i :: 0 <= i < |subEvents| ==> r[i] == NumberCell(Attendance(g, subEvents[i].id))
  {
    seq(|subEvents|, i requires 0 <= i < |subEvents| => NumberCell(Attendance(g, subEvents[i].id)))
  }

  /** `subEvents.reduce((sum, s) => sum + getAttendance(g, s.id), 0)`: a left fold. */
  function TotalPresent(g: Guest, subEvents: seq<SubEvent>): (t: int)
    ensures 0 <= t <= GuestCount(g) * |subEvents|
  {
    if subEvents == [] then 0
    else
      var init := subEvents[..|subEvents| - 1];
      assert GuestCount(g) * |subEvents| == GuestCount(g) * |init| + GuestCount(g);
      TotalPresent(g, init) + Attendance(g, subEvents[|subEvents| - 1].id)
  }

  /** One guest's row. */
  function Row(g: Guest, subEvents: seq<SubEvent>): seq<Cell> {
    [TextCell(g.firstName), TextCell(g.lastName), TextCell(g.email), TextCell(g.phone.GetOr("")),
     TextCell(StatusText(g.status)), NumberCell(GuestCount(g))]
    + AttendanceCells(g, subEvents)
    + [NumberCell(TotalPresent(g, subEvents))]
  }

  datatype ExportTable = ExportTable(headers: seq<string>, rows: seq<seq<Cell>>)

  /** `buildExportRows`: the headers, then one row per guest in list order. */
  function BuildExportRows(e: Event): (t: ExportTable)
    ensures t.headers == Headers(e.subEvents)
    ensures |t.rows| == |e.guests|
    ensures forall i :: 0 <= i < |e.guests| ==> t.rows[i] == Row(e.guests[i], e.subEvents)
  {
    ExportTable(Headers(e.subEvents),
                seq(|e.guests|, i requires 0 <= i < |e.guests| => Row(e.guests[i], e.subEvents)))
  }

  /** The numeric value of a cell; text counts as nothing. */
  function CellValue(c: Cell): int {
    if c.NumberCell? then c.n else 0
  }

  /** The sum of the values of a run of cells, from the front. */
  function SumCells(cells: seq<Cell>): int {
    if cells == [] then 0 else CellValue(cells[0]) + SumCells(cells[1..])
  }

  lemma {:induction false} SumCellsSnoc(cells: seq<Cell>, c: Cell)
    ensures SumCells(cells + [c]) == SumCells(cells) + CellValue(c)
    decreases |cells|
  {
    if cells != [] {
      assert (cells + [c])[1..] == cells[1..] + [c];
      SumCellsSnoc(cells[1..], c);
    }
  }

  /** The total is the sum of the attendance cells. */
  lemma {:induction false} TotalIsSumOfCells(g: Guest, subEvents: seq<SubEvent>)
    ensures TotalPresent(g, subEvents) == SumCells(AttendanceCells(g, subEvents))
    decreases |subEvents|
  {
    if subEvents != [] {
      var init := subEvents[..|subEvents| - 1];
      var last := subEvents[|subEvents| - 1];
      TotalIsSumOfCells(g, init);
      assert AttendanceCells(g, subEvents) == AttendanceCells(g, init) + [NumberCell(Attendance(g, last.id))];
      SumCellsSnoc(AttendanceCells(g, init), NumberCell(Attendance(g, last.id)));
    }
  }

  /** A row of `width` cells laid out as the export writes it: the head-count
      cell is in [1, 99], each attendance cell is in [0, head-count], and the last
      cell is the sum of the attendance cells. */
  predicate WellShapedRow(row: seq<Cell>, width: int) {
    var k := |FixedHeaders|;
    && |row| == width && k < width
    && row[k - 1].NumberCell? && 1 <= row[k - 1].n <= MaxGuestCount
    && (forall j :: k <= j < |row| - 1 ==> row[j].NumberCell? && 0 <= row[j].n <= row[k - 1].n)
    && row[|row| - 1] == NumberCell(SumCells(row[k..|row| - 1]))
  }

  /** A guest's row is well shaped and as wide as the header line. */
  lemma RowShape(g: Guest, subEvents: seq<SubEvent>)
    ensures WellShapedRow(Row(g, subEvents), |Headers(subEvents)|)
  {
    var k := |FixedHeaders|;
    var cells := AttendanceCells(g, subEvents);
    var row := Row(g, subEvents);
    assert |row| == k + |cells| + 1;
    assert row[k - 1] == NumberCell(GuestCount(g));
    forall j | k <= j < |row| - 1
      ensures row[j].NumberCell? && 0 <= row[j].n <= row[k - 1].n
    {
      assert row[j] == cells[j - k];
    }
    assert row[k..|row| - 1] == cells;
    TotalIsSumOfCells(g, subEvents);
  }

  /** Every row of the export is well shaped and as wide as the header line. */
  lemma ExportRowShape(e: Event, i: int)
    requires 0 <= i < |e.guests|
    ensures var t := BuildExportRows(e);
      i < |t.rows| && WellShapedRow(t.rows[i], |t.headers|)
  {
    RowShape(e.guests[i], e.subEvents);
  }

  /** Attendance is exported for every sub-event, whether or not the guest is
      linked to it: the rows do not depend on the links. */
  lemma ExportIgnoresLinks(g: Guest, subEvents: seq<SubEvent>, links: seq<string>)
    ensures Row(g.(linkedSubEventIds := links), subEvents) == Row(g, subEvents)
  {
    var h := g.(linkedSubEventIds := links);
    assert GuestCount(h) == GuestCount(g);
    assert forall s :: Attendance(h, s) == Attendance(g, s);
    TotalIsSumOfCells(g, subEvents);
    TotalIsSumOfCells(h, subEvents);
    assert AttendanceCells(h, subEvents) == AttendanceCells(g, subEvents);
  }

  /** `replace(/[^a-z0-9]/gi, '-')`: ASCII letters and digits are kept, anything else is a dash. */
  function SafeChar(c: char): char {
    if IsAsciiAlnum(c) then c else '-'
  }

  predicate IsSafeChar(c: char) {
    IsAsciiAlnum(c) || c == '-'
  }

  /** The default file name: `invites-`, the first 30 characters of the title with
      every character other than an ASCII letter or digit replaced by a dash, and
      the extension. A given non-empty name is used as it is. */
  function ExportFileName(title: string, extension: string, filename: Option<string>): (name: string)
    ensures filename.Some? && filename.value != "" ==> name == filename.value
    ensures (filename.None? || filename.value == "") ==>
              exists stem :: name == "invites-" + stem + extension
                && |stem| == (if |title| < 30 then |title| else 30)
                && (forall j :: 0 <= j < |stem| ==> IsSafeChar(stem[j]))
                && (forall j :: 0 <= j < |stem| ==> stem[j] == SafeChar(title[j]))
  {
    if filename.Some? && filename.value != "" then filename.value
    else
      var n := if |title| < 30 then |title| else 30;
      var stem := seq(n, j requires 0 <= j < n => SafeChar(title[j]));
      assert forall j :: 0 <= j < |stem| ==> IsSafeChar(stem[j]);
      "invites-" + stem + extension
  }

  predicate IsAsciiAlnum(c: char) {
    'a' <= c <= 'z' || 'A' <= c <= 'Z' || '0' <= c <= '9'
  }

  /** In the default name, which follows the 8 characters of `invites-`, each of the
      first 30 title characters is kept when it is an ASCII letter or digit and is a
      dash otherwise; the extension comes right after them. */
  lemma DefaultNameCharacters(title: string, extension: string, j: int)
    requires 0 <= j < |title| && j < 30
    ensures var name := ExportFileName(title, extension, None);
      var n := if |title| < 30 then |title| else 30;
      && |name| == 8 + n + |extension|
      && name[8 + j] == (if IsAsciiAlnum(title[j]) then title[j] else '-')
      && name[8 + n..] == extension
  {
    var name := ExportFileName(title, extension, None);
    var stem :| name == "invites-" + stem + extension
                && |stem| == (if |title| < 30 then |title| else 30)
                && (forall i :: 0 <= i < |stem| ==> stem[i] == SafeChar(title[i]));
    assert name[8 + j] == stem[j];
  }
}
