/** Contact import from files (utils/contactImport.ts): the completeness check, the CSV
    parser with its fuzzy column lookup and companion expansion, and the vCard parser.
    Both parsers are loops that push into an output list; each is proved equal to a
    specification function, about which the properties are stated. */
module ContactImport {
  import opened Types
  import opened Text

  /** `address` is the only optional field. */
  datatype ImportedContact = ImportedContact(
    firstName: string,
    lastName: string,
    email: string,
    phone: string,
    address: Option<string>)

  /** `isContactComplete`: both names, and an email or a phone, each non-blank. */
  function IsContactComplete(c: ImportedContact): (b: bool)
    ensures b <==> !AllSpace(c.firstName) && !AllSpace(c.lastName) && (!AllSpace(c.email) || !AllSpace(c.phone))
  {
    TrimEmptyIff(c.firstName);
    TrimEmptyIff(c.lastName);
    TrimEmptyIff(c.email);
    TrimEmptyIff(c.phone);
    Trim(c.firstName) != "" && Trim(c.lastName) != "" && (Trim(c.email) != "" || Trim(c.phone) != "")
  }

  /** `parts.map(s => s.trim())`. */
  function TrimAll(parts: seq<string>): (r: seq<string>)
    ensures |r| == |parts| && forall k :: 0 <= k < |parts| ==> r[k] == Trim(parts[k])
  {
    if parts == [] then [] else [Trim(parts[0])] + TrimAll(parts[1..])
  }

  /** `parts[i] || ''`, with an index past the end reading as undefined. */
  function Nth(parts: seq<string>, i: nat): string {
    if i < |parts| then parts[i] else ""
  }

  predicate IsLineFeed(c: char) { c == '\n' }
  predicate IsSemicolon(c: char) { c == ';' }
  predicate IsCsvSeparator(c: char) { c == ',' || c == ';' || c == '\t' }
  predicate IsNameSeparator(c: char) { c == ',' || c == ';' || c == '/' }
  predicate IsDigit(c: char) { '0' <= c <= '9' }

  // ---------------------------------------------------------------------------
  // `parseInt(s, 10)`.

  /** The longest run of decimal digits at the start of `s`. */
  function LeadingDigits(s: string): (d: string)
    ensures d <= s && forall i :: 0 <= i < |d| ==> IsDigit(d[i])
    ensures |d| < |s| ==> !IsDigit(s[|d|])
  {
    if s != [] && IsDigit(s[0]) then [s[0]] + LeadingDigits(s[1..]) else []
  }

  function DigitsValue(d: string): nat
    requires forall i :: 0 <= i < |d| ==> IsDigit(d[i])
  {
    if d == [] then 0
    else
      var c := d[|d| - 1];
      assert IsDigit(c);
      DigitsValue(d[..|d| - 1]) * 10 + (c as int - '0' as int)
  }

  /** `parseInt(s, 10)`: leading white space is skipped, then an optional sign and the
      longest run of digits; no digit at all gives `NaN`, here `None`. */
  function ParseInt(s: string): (r: Option<int>)
    ensures r.Some? ==> exists i :: 0 <= i < |s| && IsDigit(s[i])
  {
    var t := TrimStart(s);
    var negative := t != [] && t[0] == '-';
    var unsigned := if t != [] && (t[0] == '-' || t[0] == '+') then t[1..] else t;
    var digits := LeadingDigits(unsigned);
    if digits == [] then None
    else
      assert IsDigit(s[|s| - |t| + (|t| - |unsigned|)]);
      Some(if negative then -(DigitsValue(digits) as int) else DigitsValue(digits) as int)
  }

  /** A run of digits parses to its decimal value. */
  lemma ParseIntOfDigits(s: string)
    requires s != [] && forall i :: 0 <= i < |s| ==> IsDigit(s[i])
    ensures ParseInt(s) == Some(DigitsValue(s) as int)
  {
    assert !IsSpace(s[0]);
    assert TrimStart(s) == s;
    AllDigits(s);
  }

  /** The decimal text of a natural number parses back to it. */
  lemma ParseIntOfNatToString(n: nat)
    ensures ParseInt(NatToString(n)) == Some(n)
  {
    DigitsValueOfNatToString(n);
    ParseIntOfDigits(NatToString(n));
  }

  lemma {:induction false} AllDigits(s: string)
    requires forall i :: 0 <= i < |s| ==> IsDigit(s[i])
    ensures LeadingDigits(s) == s
  {
    if s != [] {
      AllDigits(s[1..]);
    }
  }

  lemma {:induction false} DigitsValueOfNatToString(n: nat)
    ensures forall i :: 0 <= i < |NatToString(n)| ==> IsDigit(NatToString(n)[i])
    ensures DigitsValue(NatToString(n)) == n
    decreases n
  {
    var s := NatToString(n);
    if n >= 10 {
      DigitsValueOfNatToString(n / 10);
      assert s[..|s| - 1] == NatToString(n / 10);
    }
  }

  // ---------------------------------------------------------------------------
  // CSV: lines, header and the fuzzy column lookup.

  /** `text.split(/\r?\n/).map(l => l.trim()).filter(Boolean)`. Splitting on the line feed
      alone gives the same lines: the carriage return the pattern also consumes is white
      space that the trim removes anyway. */
  function CsvLines(text: string): (lines: seq<string>)
    ensures forall k :: 0 <= k < |lines| ==> lines[k] != ""
  {
    NonEmpty(TrimAll(Split(text, IsLineFeed)))
  }

  /** A header cell: trimmed, lower-cased, every white-space character removed. */
  function HeaderCell(cell: string): (c: string)
    ensures NoSpace(c)
  {
    RemoveSpaces(ToLower(Trim(cell)))
  }

  function HeaderCells(cells: seq<string>): (r: seq<string>)
    ensures |r| == |cells| && forall k :: 0 <= k < |cells| ==> r[k] == HeaderCell(cells[k])
  {
    if cells == [] then [] else [HeaderCell(cells[0])] + HeaderCells(cells[1..])
  }

  /** `c.includes(n) || n.includes(c)`. */
  predicate Matches(col: string, name: string) {
    Contains(col, name) || Contains(name, col)
  }

  /** `cols.findIndex(c => c.includes(n) || n.includes(c))`, searching from `from`. */
  function FindColumn(cols: seq<string>, name: string, from: nat): (i: int)
    requires from <= |cols|
    ensures i == -1 || from <= i < |cols|
    ensures i >= 0 ==> Matches(cols[i], name) && forall j :: from <= j < i ==> !Matches(cols[j], name)
    ensures i == -1 ==> forall j :: from <= j < |cols| ==> !Matches(cols[j], name)
    decreases |cols| - from
  {
    if from == |cols| then -1
    else if Matches(cols[from], name) then from
    else FindColumn(cols, name, from + 1)
  }

  /** The first candidate, from `from` on, that matches some column; `|names|` when none does. */
  function FirstMatchingName(cols: seq<string>, names: seq<string>, from: nat): (k: nat)
    requires from <= |names|
    ensures from <= k <= |names|
    ensures k < |names| ==> FindColumn(cols, names[k], 0) >= 0
    ensures forall m :: from <= m < k ==> FindColumn(cols, names[m], 0) == -1
    decreases |names| - from
  {
    if from == |names| || FindColumn(cols, names[from], 0) >= 0 then from
    else FirstMatchingName(cols, names, from + 1)
  }

  /** `idx(names)`: the candidates are tried in order, and the first one that matches
      some column gives the first column it matches; `-1` when none matches any. */
  function ColumnIndex(cols: seq<string>, names: seq<string>): (i: int)
    ensures i == -1 || 0 <= i < |cols|
    ensures i == -1 <==> forall k, j :: 0 <= k < |names| && 0 <= j < |cols| ==> !Matches(cols[j], names[k])
    ensures i >= 0 ==> exists k :: 0 <= k < |names| && i == FindColumn(cols, names[k], 0)
                          && forall m :: 0 <= m < k ==> FindColumn(cols, names[m], 0) == -1
  {
    var k := FirstMatchingName(cols, names, 0);
    if k < |names| then FindColumn(cols, names[k], 0) else -1
  }

  const FirstNameColumns: seq<string> := ["prenom", "prénom", "firstname", "first", "prenoms"]
  const LastNameColumns: seq<string> := ["nom", "lastname", "last", "name", "noms", "famille"]
  const EmailColumns: seq<string> := ["email", "mail", "courriel", "e-mail"]
  const PhoneColumns: seq<string> := ["phone", "tel", "telephone", "mobile", "portable", "numero", "numéro"]
  const AddressColumns: seq<string> := ["adresse", "address"]
  const CompanionColumns: seq<string> := ["accompagnants", "companions", "nombre", "nb", "invites", "invités", "plus"]

  /** The column of each field, `-1` when absent. */
  datatype Columns = Columns(first: int, last: int, email: int, phone: int, address: int, companions: int)

  function Layout(header: string): (cols: Columns) {
    var cells := HeaderCells(Split(header, IsCsvSeparator));
    Columns(ColumnIndex(cells, FirstNameColumns), ColumnIndex(cells, LastNameColumns),
            ColumnIndex(cells, EmailColumns), ColumnIndex(cells, PhoneColumns),
            ColumnIndex(cells, AddressColumns), ColumnIndex(cells, CompanionColumns))
  }

  /** "nom" is contained in "prenom": a first-name column that comes before the last-name
      column is also taken as the last-name column. */
  lemma NomMatchesPrenom()
    ensures ColumnIndex(["prenom", "nom"], FirstNameColumns) == 0
    ensures ColumnIndex(["prenom", "nom"], LastNameColumns) == 0
  {
    assert "nom" <= "prenom"[3..];
    assert "prenom" <= "prenom"[0..];
  }

  /** An empty header cell is contained in every candidate, so it matches them all. */
  lemma EmptyCellMatchesEverything(cols: seq<string>, names: seq<string>)
    requires |cols| > 0 && cols[0] == "" && |names| > 0
    ensures ColumnIndex(cols, names) == 0
  {
    assert "" <= names[0][0..];
    assert Matches(cols[0], names[0]);
  }

  // ---------------------------------------------------------------------------
  // CSV: rows and companions.

  /** `get(index)`: the trimmed cell, or "" when the column is absent or the row short. */
  function Cell(row: seq<string>, index: int): string {
    if 0 <= index < |row| then row[index] else ""
  }

  function RowCells(line: string): seq<string> {
    TrimAll(Split(line, IsCsvSeparator))
  }

  /** The companion "Invité k" of a numeric count. */
  function NumberedCompanion(k: nat, last: string, email: string, phone: string, address: Option<string>)
    : ImportedContact
  {
    ImportedContact("Invité " + NatToString(k), OrElse(last, "—"), email, phone, address)
  }

  /** The companions "Invité 2" .. "Invité count", pushed by `for (k = 1; k < count; k++)`. */
  function NumberedCompanions(count: int, last: string, email: string, phone: string, address: Option<string>)
    : (r: seq<ImportedContact>)
    ensures |r| == if count <= 1 then 0 else count - 1
    ensures forall i :: 0 <= i < |r| ==> r[i] == NumberedCompanion(i + 2, last, email, phone, address)
    decreases count
  {
    if count <= 1 then []
    else NumberedCompanions(count - 1, last, email, phone, address) + [NumberedCompanion(count, last, email, phone, address)]
  }

  /** A named companion: the first word is the first name, the other words (or the main
      contact's last name, or "—") the last name. */
  function NamedCompanion(name: string, last: string, email: string, phone: string, address: Option<string>)
    : ImportedContact
  {
    var parts := Words(name);
    ImportedContact(if |parts| > 0 then parts[0] else "Invité",
                    OrElse(OrElse(if |parts| > 0 then Join(parts[1..], " ") else "", last), "—"),
                    email, phone, address)
  }

  function NamedCompanions(names: seq<string>, last: string, email: string, phone: string, address: Option<string>)
    : (r: seq<ImportedContact>)
    ensures |r| == |names|
    ensures forall i :: 0 <= i < |names| ==> r[i] == NamedCompanion(names[i], last, email, phone, address)
  {
    seq(|names|, i requires 0 <= i < |names| => NamedCompanion(names[i], last, email, phone, address))
  }

  /** `compRaw.split(/[,;\/]+/).map(s => s.trim()).filter(Boolean)`: splitting on single
      separators gives the same names once the empty pieces are dropped. */
  function CompanionNames(raw: string): (names: seq<string>)
    ensures forall k :: 0 <= k < |names| ==> names[k] != ""
  {
    NonEmpty(TrimAll(Split(raw, IsNameSeparator)))
  }

  /** The contacts a companions cell adds after the main contact: nothing for an empty
      cell; "Invité 2".."Invité n" for a value parsing to n > 0; otherwise one contact per
      name. */
  function Companions(raw: string, last: string, email: string, phone: string, address: Option<string>)
    : seq<ImportedContact>
  {
    if raw == "" then []
    else
      var n := ParseInt(raw);
      if n.Some? && n.value > 0 then NumberedCompanions(n.value, last, email, phone, address)
      else NamedCompanions(CompanionNames(raw), last, email, phone, address)
  }

  /** The main contact a data row yields, before the blank-row test. */
  function MainContact(row: seq<string>, cols: Columns): (c: ImportedContact)
    ensures NoSpace(c.phone)
  {
    ImportedContact(Cell(row, cols.first), Cell(row, cols.last), Cell(row, cols.email),
                    RemoveSpaces(Cell(row, cols.phone)),
                    if cols.address >= 0 then Some(Cell(row, cols.address)) else None)
  }

  predicate IsBlankRow(c: ImportedContact) {
    c.firstName == "" && c.lastName == "" && c.email == "" && c.phone == ""
  }

  function CompanionCell(row: seq<string>, cols: Columns): string {
    if cols.companions >= 0 then Cell(row, cols.companions) else ""
  }

  /** What one data line contributes. */
  function RowContacts(line: string, cols: Columns): seq<ImportedContact> {
    var row := RowCells(line);
    var main := MainContact(row, cols);
    if IsBlankRow(main) then []
    else [main] + Companions(CompanionCell(row, cols), main.lastName, main.email, main.phone, main.address)
  }

  /** The contacts of data lines 1 .. n - 1 (line 0 is the header), in order. */
  function DataContacts(lines: seq<string>, n: nat, cols: Columns): seq<ImportedContact>
    requires n <= |lines|
  {
    if n <= 1 then [] else DataContacts(lines, n - 1, cols) + RowContacts(lines[n - 1], cols)
  }

  /** The contacts `parseCsv` returns. */
  function CsvContacts(text: string): seq<ImportedContact> {
    var lines := CsvLines(text);
    if |lines| < 2 then [] else DataContacts(lines, |lines|, Layout(lines[0]))
  }

  /** One iteration of `parseCsv`'s loop: the row's main contact and its companions;
      nothing for a blank row. */
  method ParseRow(line: string, cols: Columns) returns (r: seq<ImportedContact>)
    ensures r == RowContacts(line, cols)
  {
    var row := RowCells(line);
    var main := MainContact(row, cols);
    if IsBlankRow(main) {
      return [];
    }
    var comps := CompanionsOf(CompanionCell(row, cols), main);
    r := [main] + comps;
  }

  /** The companions of one main contact. */
  method CompanionsOf(compRaw: string, main: ImportedContact) returns (comps: seq<ImportedContact>)
    ensures comps == Companions(compRaw, main.lastName, main.email, main.phone, main.address)
  {
    if compRaw == "" {
      return [];
    }
    var compNum := ParseInt(compRaw);
    if compNum.Some? && compNum.value > 0 {
      comps := PushNumbered(compNum.value, main);
    } else {
      comps := PushNamed(CompanionNames(compRaw), main);
    }
  }

  /** `for (let k = 1; k < compNum; k++) out.push({ firstName: `Invité ${k + 1}`, ... })`. */
  method PushNumbered(count: int, main: ImportedContact) returns (comps: seq<ImportedContact>)
    requires count > 0
    ensures comps == NumberedCompanions(count, main.lastName, main.email, main.phone, main.address)
  {
    comps := [];
    var k := 1;
    while k < count
      invariant 1 <= k <= count
      invariant comps == NumberedCompanions(k, main.lastName, main.email, main.phone, main.address)
    {
      comps := comps + [NumberedCompanion(k + 1, main.lastName, main.email, main.phone, main.address)];
      k := k + 1;
    }
  }

  /** `for (const name of names) out.push(...)`. */
  method PushNamed(names: seq<string>, main: ImportedContact) returns (comps: seq<ImportedContact>)
    ensures comps == NamedCompanions(names, main.lastName, main.email, main.phone, main.address)
  {
    comps := [];
    var j := 0;
    while j < |names|
      invariant 0 <= j <= |names|
      invariant comps == NamedCompanions(names[..j], main.lastName, main.email, main.phone, main.address)
    {
      assert names[..j + 1][..j] == names[..j];
      comps := comps + [NamedCompanion(names[j], main.lastName, main.email, main.phone, main.address)];
      j := j + 1;
    }
    assert names[..|names|] == names;
  }

  /** `parseCsv`: fewer than two non-blank lines give nothing; otherwise the header
      fixes the columns and every later line is parsed in turn. */
  method ParseCsv(text: string) returns (out: seq<ImportedContact>)
    ensures out == CsvContacts(text)
    ensures |CsvLines(text)| < 2 ==> out == []
  {
    var lines := CsvLines(text);
    if |lines| < 2 {
      return [];
    }
    var cols := Layout(lines[0]);
    out := ParseDataLines(lines, cols);
  }

  /** The loop of `parseCsv` over the lines after the header. */
  method ParseDataLines(lines: seq<string>, cols: Columns) returns (out: seq<ImportedContact>)
    requires |lines| >= 1
    ensures out == DataContacts(lines, |lines|, cols)
  {
    out := [];
    for i := 1 to |lines|
      invariant out == DataContacts(lines, i, cols)
    {
      out := AppendRow(lines, i, out, cols);
    }
  }

  /** One pass of that loop: the contacts of the lines read so far, then those of line `i`. */
  method AppendRow(lines: seq<string>, i: nat, out: seq<ImportedContact>, cols: Columns)
    returns (out': seq<ImportedContact>)
    requires 1 <= i < |lines|
    requires out == DataContacts(lines, i, cols)
    ensures out' == DataContacts(lines, i + 1, cols)
  {
    var contacts := ParseRow(lines[i], cols);
    out' := out + contacts;
  }

  /** A data line yields nothing exactly when its first name, last name, email and phone
      are all empty; otherwise the main contact comes first, its phone without white space,
      followed by its companions. */
  lemma RowContactsShape(line: string, cols: Columns)
    ensures var r := RowContacts(line, cols);
            var row := RowCells(line);
            && (r == [] <==> Cell(row, cols.first) == "" && Cell(row, cols.last) == ""
                             && Cell(row, cols.email) == "" && RemoveSpaces(Cell(row, cols.phone)) == "")
            && (r != [] ==> r[0] == MainContact(row, cols) && NoSpace(r[0].phone)
                            && r[1..] == Companions(CompanionCell(row, cols), r[0].lastName, r[0].email, r[0].phone, r[0].address))
  {
  }

  /** A positive count n adds exactly n - 1 companions "Invité 2".."Invité n", sharing the
      main contact's email, phone and address, with its last name or "—". */
  lemma CountedCompanions(n: nat, last: string, email: string, phone: string, address: Option<string>)
    requires n > 0
    ensures var r := Companions(NatToString(n), last, email, phone, address);
            |r| == n - 1
            && forall i :: 0 <= i < |r| ==>
                 r[i].firstName == "Invité " + NatToString(i + 2) && r[i].lastName == OrElse(last, "—")
                 && r[i].email == email && r[i].phone == phone && r[i].address == address
  {
    ParseIntOfNatToString(n);
  }

  /** "0" is not a positive count, so it is read as a name: one companion called "0". */
  lemma ZeroIsAName(last: string, email: string, phone: string, address: Option<string>)
    ensures Companions("0", last, email, phone, address) == [ImportedContact("0", OrElse(last, "—"), email, phone, address)]
  {
    ParseIntOfNatToString(0);
    SplitWithoutSeparator("0", IsNameSeparator);
    assert TrimAll(["0"]) == ["0"];
    assert CompanionNames("0") == ["0"];
    WordsOfNoSpace("0");
    assert Words("0") == ["0"];
  }

  // ---------------------------------------------------------------------------
  // vCard.

  const BeginCard: string := "BEGIN:VCARD"

  /** Position `i` starts a `BEGIN:VCARD` line marker, in any letter case. */
  predicate CardStartsAt(text: string, i: nat) {
    i + |BeginCard| <= |text| && ToUpper(text[i..i + |BeginCard|]) == BeginCard
  }

  /** The first card start at or after `from`, or the end of the text. */
  function NextCardStart(text: string, from: nat): (j: nat)
    requires from <= |text|
    ensures from <= j <= |text|
    ensures j < |text| ==> CardStartsAt(text, j)
    ensures forall m :: from <= m < j ==> !CardStartsAt(text, m)
    decreases |text| - from
  {
    if from == |text| || CardStartsAt(text, from) then from else NextCardStart(text, from + 1)
  }

  /** `text.split(/(?=BEGIN:VCARD)/i).filter(Boolean)`: the text cut just before every
      `BEGIN:VCARD` that is not at the very start. */
  function Cards(text: string): (cards: seq<string>)
    ensures forall k :: 0 <= k < |cards| ==> cards[k] != ""
    decreases |text|
  {
    if text == [] then []
    else
      var j := NextCardStart(text, 1);
      [text[..j]] + Cards(text[j..])
  }

  function Concat(parts: seq<string>): string {
    if parts == [] then "" else parts[0] + Concat(parts[1..])
  }

  /** No marker starts inside another: none of its letters after the first is a `B`. */
  lemma MarkersDoNotOverlap(s: string, m: nat)
    requires CardStartsAt(s, 0) && 1 <= m < |BeginCard|
    ensures !CardStartsAt(s, m)
  {
    var head := ToUpper(s[0..|BeginCard|]);
    assert UpperChar(s[m]) == head[m];
  }

  /** A text that starts with a marker has a first card at least as long as the marker. */
  lemma FirstCardHoldsMarker(s: string)
    requires CardStartsAt(s, 0)
    ensures NextCardStart(s, 1) >= |BeginCard|
  {
    var j := NextCardStart(s, 1);
    if j < |BeginCard| {
      MarkersDoNotOverlap(s, j);
    }
  }

  /** The cards cover the text exactly, in order, and every card after the first begins
      with the marker. */
  lemma CardsPartition(text: string)
    ensures Concat(Cards(text)) == text
    ensures forall k :: 1 <= k < |Cards(text)| ==> CardStartsAt(Cards(text)[k], 0)
  {
    CardsConcat(text);
    CardsStartWithMarker(text);
  }

  lemma {:induction false} CardsConcat(text: string)
    ensures Concat(Cards(text)) == text
    decreases |text|
  {
    if text != [] {
      var j := NextCardStart(text, 1);
      CardsConcat(text[j..]);
      assert text == text[..j] + text[j..];
    }
  }

  lemma {:induction false} CardsStartWithMarker(text: string)
    ensures forall k :: 1 <= k < |Cards(text)| ==> CardStartsAt(Cards(text)[k], 0)
    decreases |text|
  {
    if text != [] {
      var j := NextCardStart(text, 1);
      var rest := text[j..];
      CardsStartWithMarker(rest);
      if rest != [] {
        assert rest[0..|BeginCard|] == text[j..j + |BeginCard|];
        FirstCardStartsWithMarker(rest);
      }
      assert forall k :: 1 <= k < |Cards(text)| ==> Cards(text)[k] == Cards(rest)[k - 1];
    }
  }

  /** The first card of a text that starts with a marker starts with it too. */
  lemma FirstCardStartsWithMarker(rest: string)
    requires CardStartsAt(rest, 0)
    ensures Cards(rest) != [] && CardStartsAt(Cards(rest)[0], 0)
  {
    FirstCardHoldsMarker(rest);
    var c := Cards(rest)[0];
    assert c == rest[..NextCardStart(rest, 1)];
    assert c[0..|BeginCard|] == rest[0..|BeginCard|];
  }

  /** The text after the last colon of `s`. */
  function AfterLastColon(s: string): (r: string)
    requires ':' in s
    ensures ':' !in r && |r| < |s| && s[|s| - |r| - 1] == ':' && r == s[|s| - |r|..]
  {
    if s[|s| - 1] == ':' then []
    else
      assert ':' in s[..|s| - 1] by {
        var i :| 0 <= i < |s| && s[i] == ':';
        assert s[..|s| - 1][i] == ':';
      }
      AfterLastColon(s[..|s| - 1]) + [s[|s| - 1]]
  }

  /** `^KEY(?:;.*)?:(.*)$` on one line, case-insensitive: the value after `KEY:`, or after
      the last colon when parameters follow `KEY;` (the greedy `.*` reaches it). */
  function PropertyValue(line: string, key: string): (r: Option<string>)
  {
    if |line| <= |key| || ToUpper(line[..|key|]) != key then None
    else
      var rest := line[|key|..];
      if rest[0] == ':' then Some(rest[1..])
      else if rest[0] == ';' && ':' in rest then Some(AfterLastColon(rest))
      else None
  }

  /** The first matching line wins (`match` without the global flag). */
  function FirstValue(lines: seq<string>, key: string): (r: Option<string>)
    ensures r.Some? <==> exists k :: 0 <= k < |lines| && PropertyValue(lines[k], key).Some?
  {
    if lines == [] then None
    else if PropertyValue(lines[0], key).Some? then PropertyValue(lines[0], key)
    else
      var r := FirstValue(lines[1..], key);
      assert forall k :: 1 <= k < |lines| ==> lines[k] == lines[1..][k - 1];
      r
  }

  /** `replace(/\\n/g, '\n')`: every backslash-n pair becomes a line feed. */
  function Unescape(s: string): string {
    if |s| >= 2 && s[0] == '\\' && s[1] == 'n' then ['\n'] + Unescape(s[2..])
    else if s == [] then []
    else [s[0]] + Unescape(s[1..])
  }

  /** `get(key)` inside a card: the unescaped, trimmed value, "" when no line matches. */
  function Property(card: string, key: string): (v: string)
    ensures v == [] || (!IsSpace(v[0]) && !IsSpace(v[|v| - 1]))
  {
    match FirstValue(Split(card, IsLineTerminator), key)
    case None => ""
    case Some(v) => Trim(Unescape(v))
  }

  /** ADR parts trimmed, empty ones dropped, the rest joined with ", "; no address
      without a (non-blank) ADR value. */
  function CardAddress(adr: string): (r: Option<string>)
    ensures r.None? <==> adr == ""
  {
    if adr == "" then None else Some(Join(NonEmpty(TrimAll(Split(adr, IsSemicolon))), ", "))
  }

  /** `n[1] || (fn ? fn.split(/\s+/)[0] : '')`. `fn` is trimmed, so splitting it on runs
      of white space gives its words. */
  function CardFirstName(n: seq<string>, fn: string): string {
    var words := Words(fn);
    OrElse(Nth(n, 1), if fn != "" then Nth(words, 0) else "")
  }

  /** `n[0] || (fn ? fn.split(/\s+/).slice(1).join(' ') : '')`. */
  function CardLastName(n: seq<string>, fn: string): string {
    var words := Words(fn);
    OrElse(Nth(n, 0), if fn != "" && |words| > 0 then Join(words[1..], " ") else "")
  }

  /** One card as a contact. */
  function CardContact(card: string): (c: ImportedContact)
    ensures NoSpace(c.phone)
  {
    var n := TrimAll(Split(Property(card, "N"), IsSemicolon));
    var fn := Property(card, "FN");
    ImportedContact(CardFirstName(n, fn), CardLastName(n, fn), Property(card, "EMAIL"),
                    RemoveSpaces(Property(card, "TEL")), CardAddress(Property(card, "ADR")))
  }

  /** The final filter: a contact with a non-blank name, email or phone. */
  predicate HasSomeField(c: ImportedContact) {
    Trim(c.firstName) != "" || Trim(c.lastName) != "" || Trim(c.email) != "" || Trim(c.phone) != ""
  }

  function KeepFilled(cs: seq<ImportedContact>): (r: seq<ImportedContact>)
    ensures |r| <= |cs|
    ensures forall c :: c in r <==> c in cs && HasSomeField(c)
  {
    if cs == [] then []
    else if HasSomeField(cs[0]) then [cs[0]] + KeepFilled(cs[1..])
    else KeepFilled(cs[1..])
  }

  function CardContacts(cards: seq<string>): (r: seq<ImportedContact>)
    ensures |r| == |cards| && forall k :: 0 <= k < |cards| ==> r[k] == CardContact(cards[k])
  {
    if cards == [] then [] else CardContacts(cards[..|cards| - 1]) + [CardContact(cards[|cards| - 1])]
  }

  /** The contacts `parseVcf` returns. */
  function VcfContacts(text: string): seq<ImportedContact> {
    KeepFilled(CardContacts(Cards(text)))
  }

  /** `parseVcf`: one candidate per card, then the blank ones dropped. */
  method ParseVcf(text: string) returns (r: seq<ImportedContact>)
    ensures r == VcfContacts(text)
    ensures |r| <= |Cards(text)|
    ensures forall c :: c in r ==> HasSomeField(c) && NoSpace(c.phone)
  {
    var cards := Cards(text);
    var out := ParseCards(cards);
    r := KeepFilled(out);
    forall c | c in r ensures NoSpace(c.phone) {
      var k :| 0 <= k < |out| && out[k] == c;
      assert c == CardContact(cards[k]);
    }
  }

  /** The loop of `parseVcf` over the cards. */
  method ParseCards(cards: seq<string>) returns (out: seq<ImportedContact>)
    ensures out == CardContacts(cards)
  {
    out := [];
    var i := 0;
    while i < |cards|
      invariant 0 <= i <= |cards|
      invariant out == CardContacts(cards[..i])
    {
      out := AppendCard(cards, i, out);
      i := i + 1;
    }
    assert cards[..i] == cards;
  }

  /** One turn of the card loop: the card's contact is pushed. */
  method AppendCard(cards: seq<string>, i: nat, out: seq<ImportedContact>) returns (out': seq<ImportedContact>)
    requires i < |cards| && out == CardContacts(cards[..i])
    ensures out' == CardContacts(cards[..i + 1])
  {
    assert cards[..i + 1][..i] == cards[..i];
    out' := out + [CardContact(cards[i])];
  }

  /** With no (or a blank) N property, the first word of FN is the first name and the
      other words, joined by single spaces, the last name. */
  lemma NameFromFullName(card: string)
    requires Property(card, "N") == "" && Words(Property(card, "FN")) != []
    ensures var words := Words(Property(card, "FN"));
            CardContact(card).firstName == words[0] && CardContact(card).lastName == Join(words[1..], " ")
  {
    assert Split("", IsSemicolon) == [""];
    assert TrimAll([""]) == [""];
    var fn := Property(card, "FN");
    assert fn != "" by {
      assert Split("", IsSpace) == [""];
      assert NonEmpty([""]) == [];
    }
  }

  /** A card without an ADR line has no address. */
  lemma NoAdrNoAddress(card: string)
    requires forall k :: 0 <= k < |Split(card, IsLineTerminator)| ==>
               PropertyValue(Split(card, IsLineTerminator)[k], "ADR").None?
    ensures CardContact(card).address.None?
  {
  }
}
