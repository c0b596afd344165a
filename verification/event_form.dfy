/** The event creation form (components/EventForm.tsx): its state, the
    validation that fills the error record, the payload it submits and the
    blank sequence it can append. Date parsing (`new Date(s)`) and
    `parseFloat` are function parameters; `parseInt` is modelled. */
module EventForm {
  import opened Types
  import opened Text
  import opened ErrorRecords

  /** The text fields of the form, as typed (`formData`). */
  datatype FormData = FormData(
    title: string,
    description: string,
    startDate: string,
    endDate: string,
    location: string,
    category: Category,
    generalGuestsCount: string,
    budget: string)

  const InitialFormData := FormData("", "", "", "", "", Social, "0", "0")

  /** What the form hands to `onSubmit`: an event without id, share code, share
      password, guest-chat flag and organizers. */
  datatype EventDraft = EventDraft(
    title: string,
    description: Option<string>,
    startDate: Option<string>,
    endDate: Option<string>,
    isPeriod: bool,
    isDateTBD: bool,
    location: string,
    image: Option<string>,
    creatorId: string,
    category: Category,
    generalGuestsCount: int,
    budget: real,
    subEvents: seq<SubEvent>,
    guests: seq<Guest>,
    date: Option<string>)

  // ---------------------------------------------------------------------------
  // parseInt

  predicate IsDecimalDigit(c: char) { '0' <= c <= '9' }

  predicate IsDigitIn(c: char, radix: nat) {
    IsDecimalDigit(c) || (radix == 16 && ('a' <= c <= 'f' || 'A' <= c <= 'F'))
  }

  function DigitOf(c: char): (d: nat)
    ensures IsDecimalDigit(c) ==> d == c as int - '0' as int
  {
    if IsDecimalDigit(c) then c as int - '0' as int
    else if 'a' <= c <= 'f' then c as int - 'a' as int + 10
    else if 'A' <= c <= 'F' then c as int - 'A' as int + 10
    else 0
  }

  /** The longest prefix of `s` made of digits of the radix. */
  function LeadingDigits(s: string, radix: nat): (r: string)
    ensures r <= s
    ensures forall i :: 0 <= i < |r| ==> IsDigitIn(r[i], radix)
    ensures |r| < |s| ==> !IsDigitIn(s[|r|], radix)
  {
    if s == [] || !IsDigitIn(s[0], radix) then []
    else [s[0]] + LeadingDigits(s[1..], radix)
  }

  /** The number the digits spell, most significant first. */
  function DigitsValue(ds: string, radix: nat): nat {
    if ds == [] then 0
    else DigitsValue(ds[..|ds| - 1], radix) * radix + DigitOf(ds[|ds| - 1])
  }

  /** `parseInt(s)` without a radix: leading white space is skipped, then an
      optional sign, then `0x`/`0X` switches to base 16; the longest run of digits
      that follows is read, and no digit at all is `NaN` (here `None`). */
  function ParseInt(s: string): Option<int> {
    var t := TrimStart(s);
    var negative := t != [] && t[0] == '-';
    var unsigned := if t != [] && (t[0] == '-' || t[0] == '+') then t[1..] else t;
    var hex := |unsigned| >= 2 && unsigned[0] == '0' && (unsigned[1] == 'x' || unsigned[1] == 'X');
    var radix := if hex then 16 else 10;
    var digits := LeadingDigits(if hex then unsigned[2..] else unsigned, radix);
    if digits == [] then None
    else
      var v: int := DigitsValue(digits, radix);
      Some(if negative then -v else v)
  }

  /** `parseInt(s) || 0`: `NaN` (and 0) become 0. */
  function IntOrZero(s: string): int {
    var p := ParseInt(s);
    if p.None? then 0 else p.value
  }

  lemma {:induction false} NatToStringNoLeadingZero(n: nat)
    ensures |NatToString(n)| >= 2 ==> NatToString(n)[0] != '0'
    ensures NatToString(n)[0] == '0' ==> n == 0
    decreases n
  {
    if n >= 10 {
      NatToStringNoLeadingZero(n / 10);
      assert NatToString(n)[0] == NatToString(n / 10)[0];
    }
  }

  lemma {:induction false} DigitsValueOfNatToString(n: nat)
    ensures DigitsValue(NatToString(n), 10) == n
    decreases n
  {
    var s := NatToString(n);
    if n < 10 {
      assert s[..0] == [];
    } else {
      DigitsValueOfNatToString(n / 10);
      assert s[..|s| - 1] == NatToString(n / 10);
    }
  }

  lemma {:induction false} LeadingDigitsOfDigits(s: string)
    requires forall i :: 0 <= i < |s| ==> IsDecimalDigit(s[i])
    ensures LeadingDigits(s, 10) == s
    decreases |s|
  {
    if s != [] {
      LeadingDigitsOfDigits(s[1..]);
      assert [s[0]] + s[1..] == s;
    }
  }

  /** A count the form itself wrote in decimal reads back as that count. */
  lemma ParseIntOfNatToString(n: nat)
    ensures ParseInt(NatToString(n)) == Some(n)
    ensures IntOrZero(NatToString(n)) == n
  {
    var s := NatToString(n);
    assert !IsSpace(s[0]);
    NatToStringNoLeadingZero(n);
    LeadingDigitsOfDigits(s);
    DigitsValueOfNatToString(n);
  }

  // ---------------------------------------------------------------------------
  // validate

  /** The keys of the error record. */
  datatype Field = TitleKey | StartDateKey | EndDateKey | LocationKey

  const TitleError := "Un titre est indispensable pour commencer."
  const StartDateError := "Veuillez choisir une date ou cocher 'À confirmer'."
  const EndDateError := "La date de fin doit être ultérieure au début."
  const LocationError := "Précisez un lieu ou cochez 'À confirmer'."

  /** `new Date(a) <= new Date(b)`: false as soon as one side is an invalid date. */
  predicate NotAfter(a: string, b: string, parse: string -> Option<Timestamp>) {
    parse(a).Some? && parse(b).Some? && parse(a).value <= parse(b).value
  }

  predicate TitleMissing(f: FormData) { Trim(f.title) == "" }

  predicate StartMissing(f: FormData, isDateTBD: bool) { !isDateTBD && f.startDate == "" }

  predicate EndNotAfterStart(f: FormData, isPeriod: bool, parse: string -> Option<Timestamp>) {
    isPeriod && f.endDate != "" && NotAfter(f.endDate, f.startDate, parse)
  }

  predicate LocationMissing(f: FormData, isLocationUndecided: bool) {
    f.location == "" && !isLocationUndecided
  }

  /** The error record `validate` leaves: the rules in order, each storing its
      message under its field when it fails. */
  function FormErrors(f: FormData, isPeriod: bool, isDateTBD: bool, isLocationUndecided: bool,
                      parse: string -> Option<Timestamp>): (errors: map<Field, string>)
    ensures TitleKey in errors <==> TitleMissing(f)
    ensures StartDateKey in errors <==> StartMissing(f, isDateTBD)
    ensures EndDateKey in errors <==> EndNotAfterStart(f, isPeriod, parse)
    ensures LocationKey in errors <==> LocationMissing(f, isLocationUndecided)
    ensures TitleKey in errors ==> errors[TitleKey] == TitleError
    ensures StartDateKey in errors ==> errors[StartDateKey] == StartDateError
    ensures EndDateKey in errors ==> errors[EndDateKey] == EndDateError
    ensures LocationKey in errors ==> errors[LocationKey] == LocationError
  {
    var m := WithRule(map[], TitleKey, TitleMissing(f), TitleError);
    var m := WithRule(m, StartDateKey, StartMissing(f, isDateTBD), StartDateError);
    var m := WithRule(m, EndDateKey, EndNotAfterStart(f, isPeriod, parse), EndDateError);
    WithRule(m, LocationKey, LocationMissing(f, isLocationUndecided), LocationError)
  }

  /** The form is valid exactly when no rule fails. */
  lemma FormValidIff(f: FormData, isPeriod: bool, isDateTBD: bool, isLocationUndecided: bool,
                     parse: string -> Option<Timestamp>)
    ensures FormErrors(f, isPeriod, isDateTBD, isLocationUndecided, parse) == map[]
            <==> !TitleMissing(f) && !StartMissing(f, isDateTBD)
                 && !EndNotAfterStart(f, isPeriod, parse) && !LocationMissing(f, isLocationUndecided)
  {
    var errors := FormErrors(f, isPeriod, isDateTBD, isLocationUndecided, parse);
    if TitleMissing(f) { assert TitleKey in errors; }
    if StartMissing(f, isDateTBD) { assert StartDateKey in errors; }
    if EndNotAfterStart(f, isPeriod, parse) { assert EndDateKey in errors; }
    if LocationMissing(f, isLocationUndecided) { assert LocationKey in errors; }
  }

  /** A fresh form is refused: no title, no start date and no place. */
  lemma InitialFormRefused(parse: string -> Option<Timestamp>)
    ensures FormErrors(InitialFormData, false, false, false, parse).Keys == {TitleKey, StartDateKey, LocationKey}
  {
    EmptyFormRefused(InitialFormData, parse);
  }

  /** A form whose title, start date and place are empty fails exactly those three rules. */
  lemma EmptyFormRefused(f: FormData, parse: string -> Option<Timestamp>)
    requires f.title == "" && f.startDate == "" && f.location == ""
    ensures FormErrors(f, false, false, false, parse).Keys == {TitleKey, StartDateKey, LocationKey}
  {
    TrimOfTrimmed(f.title);
    var errors := FormErrors(f, false, false, false, parse);
    forall k: Field ensures k in errors <==> k in {TitleKey, StartDateKey, LocationKey} {
      match k
      case TitleKey =>
      case StartDateKey =>
      case EndDateKey =>
      case LocationKey =>
    }
  }

  // ---------------------------------------------------------------------------
  // handleSubmit and addSubEvent

  /** The payload `handleSubmit` builds from the form state. */
  function SubmittedDraft(f: FormData, isPeriod: bool, isDateTBD: bool, subEvents: seq<SubEvent>,
                          userId: string, parseFloat: string -> Option<real>): (d: EventDraft)
    ensures d.startDate == d.date
    ensures d.startDate.None? <==> isDateTBD
    ensures d.startDate.Some? ==> d.startDate.value == f.startDate
    ensures d.endDate.Some? <==> isPeriod && !isDateTBD
    ensures d.endDate.Some? ==> d.endDate.value == f.endDate
    ensures d.guests == [] && d.creatorId == userId && d.subEvents == subEvents
    ensures d.title == f.title && d.description == Some(f.description) && d.location == f.location
    ensures d.image.None? && d.category == f.category && d.isPeriod == isPeriod && d.isDateTBD == isDateTBD
  {
    EventDraft(f.title, Some(f.description),
               if isDateTBD then None else Some(f.startDate),
               if isPeriod && !isDateTBD then Some(f.endDate) else None,
               isPeriod, isDateTBD, f.location, None, userId, f.category,
               IntOrZero(f.generalGuestsCount),
               parseFloat(f.budget).GetOr(0.0),
               subEvents, [],
               if isDateTBD then None else Some(f.startDate))
  }

  /** A submitted event has a non-blank title, a start date unless it is to be
      confirmed, a place unless it is undecided, and an end after its start
      whenever both dates can be compared. */
  lemma SubmittedDraftIsValid(f: FormData, isPeriod: bool, isDateTBD: bool, isLocationUndecided: bool,
                              subEvents: seq<SubEvent>, userId: string,
                              parse: string -> Option<Timestamp>, parseFloat: string -> Option<real>)
    requires FormErrors(f, isPeriod, isDateTBD, isLocationUndecided, parse) == map[]
    ensures var d := SubmittedDraft(f, isPeriod, isDateTBD, subEvents, userId, parseFloat);
      && Trim(d.title) != ""
      && (d.startDate.Some? ==> d.startDate.value != "")
      && (d.location == "" ==> isLocationUndecided)
      && ((d.endDate.Some? && d.endDate.value != "" && parse(d.endDate.value).Some?
           && parse(d.startDate.value).Some?) ==> parse(d.endDate.value).value > parse(d.startDate.value).value)
  {
    FormValidIff(f, isPeriod, isDateTBD, isLocationUndecided, parse);
  }

  /** The blank sequence `addSubEvent` appends. */
  function BlankSubEvent(uuid: string): (s: SubEvent)
    ensures s.id == uuid && s.title == "" && s.keyMoments == [] && s.estimatedGuests == 0
  {
    SubEvent(uuid, "", Some(""), Some(""), 0, [])
  }

  /** The body of `validate`: a fresh record, one rule after the other. */
  method CollectErrors(f: FormData, isPeriod: bool, isDateTBD: bool, isLocationUndecided: bool,
                       parse: string -> Option<Timestamp>) returns (newErrors: map<Field, string>)
    ensures newErrors == FormErrors(f, isPeriod, isDateTBD, isLocationUndecided, parse)
  {
    newErrors := map[];
    newErrors := CheckRule(newErrors, TitleKey, TitleMissing(f), TitleError);
    newErrors := CheckRule(newErrors, StartDateKey, StartMissing(f, isDateTBD), StartDateError);
    newErrors := CheckRule(newErrors, EndDateKey, EndNotAfterStart(f, isPeriod, parse), EndDateError);
    newErrors := CheckRule(newErrors, LocationKey, LocationMissing(f, isLocationUndecided), LocationError);
  }

  /** The form's state (`useState` hooks). */
  class EventFormState {
    var formData: FormData
    var isPeriod: bool
    var isDateTBD: bool
    var isLocationUndecided: bool
    var subEvents: seq<SubEvent>
    var errors: map<Field, string>

    constructor ()
      ensures formData == InitialFormData && subEvents == [] && errors == map[]
      ensures !isPeriod && !isDateTBD && !isLocationUndecided
    {
      formData := InitialFormData;
      isPeriod := false;
      isDateTBD := false;
      isLocationUndecided := false;
      subEvents := [];
      errors := map[];
    }

    /** `addSubEvent`: one blank sequence at the end; the others are kept. */
    method AddSubEvent(uuid: string)
      modifies this`subEvents
      ensures subEvents == old(subEvents) + [BlankSubEvent(uuid)]
    {
      subEvents := subEvents + [BlankSubEvent(uuid)];
    }

    /** `validate`: fills a fresh error record rule by rule, stores it, and answers
        whether it is empty. */
    method Validate(parse: string -> Option<Timestamp>) returns (ok: bool)
      modifies this`errors
      ensures ok <==> errors == map[]
      ensures errors == FormErrors(formData, isPeriod, isDateTBD, isLocationUndecided, parse)
    {
      var f, period, tbd, undecided := formData, isPeriod, isDateTBD, isLocationUndecided;
      var newErrors := CollectErrors(f, period, tbd, undecided, parse);
      errors := newErrors;
      assert formData == f && isPeriod == period && isDateTBD == tbd && isLocationUndecided == undecided;
      ok := newErrors == map[];
    }

    /** `handleSubmit`: validates, then hands the payload over only when the
        error record is empty. */
    method HandleSubmit(userId: string, parse: string -> Option<Timestamp>, parseFloat: string -> Option<real>)
      returns (submitted: Option<EventDraft>)
      modifies this`errors
      ensures errors == FormErrors(formData, isPeriod, isDateTBD, isLocationUndecided, parse)
      ensures submitted.Some? <==> errors == map[]
      ensures submitted.Some? ==>
                submitted.value == SubmittedDraft(formData, isPeriod, isDateTBD, subEvents, userId, parseFloat)
    {
      var ok := Validate(parse);
      if ok {
        submitted := Some(SubmittedDraft(formData, isPeriod, isDateTBD, subEvents, userId, parseFloat));
      } else {
        submitted := None;
      }
    }
  }
}
