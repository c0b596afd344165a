/** The sign-up form (components/RegisterForm.tsx): the nine validation rules
    and the error record they fill, the address picker that fills three fields,
    and the payload handed to `onSubmit`. */
module RegisterForm {
  import opened Types
  import opened Text
  import opened ErrorRecords

  /** The form's text fields, as typed. */
  datatype RegisterFormData = RegisterFormData(
    firstName: string,
    lastName: string,
    email: string,
    phone: string,
    street: string,
    city: string,
    zipCode: string,
    password: string,
    confirmPassword: string)

  const InitialFormData := RegisterFormData("", "", "", "", "", "", "", "", "")

  /** The keys of the error record. */
  datatype Field = FirstNameKey | LastNameKey | EmailKey | PhoneKey | StreetKey | CityKey
                 | ZipCodeKey | PasswordKey | ConfirmPasswordKey

  const FirstNameError := "Le prénom est requis"
  const LastNameError := "Le nom est requis"
  const EmailError := "Email invalide"
  const PhoneError := "Numéro de téléphone invalide"
  const StreetError := "La rue est requise"
  const CityError := "La ville est requise"
  const ZipCodeError := "Le code postal est requis"
  const PasswordError := "Le mot de passe doit faire au moins 8 caractères"
  const ConfirmPasswordError := "Les mots de passe ne correspondent pas"

  const MinPasswordLength := 8

  /** `/^\S+@\S+\.\S+$/`: the whole text is non-blank runs around an `@` and a
      later `.`, i.e. no white space, an `@` after at least one character, and a
      `.` with at least one character on each side that comes after the `@` and
      one more character. */
  predicate EmailPattern(s: string) {
    NoSpace(s)
    && exists i, j :: 0 < i && i + 2 <= j && j + 2 <= |s| && s[i] == '@' && s[j] == '.'
  }

  predicate IsPhoneChar(c: char) {
    '0' <= c <= '9' || IsSpace(c) || c == '-'
  }

  /** `/^\+?[0-9\s-]{10,}$/`: an optional leading `+`, then at least ten digits,
      white-space characters or dashes and nothing else. A leading `+` can only be
      the optional one, since the class does not contain it. */
  predicate PhonePattern(s: string) {
    |PhoneBody(s)| >= 10 && forall k :: 0 <= k < |PhoneBody(s)| ==> IsPhoneChar(PhoneBody(s)[k])
  }

  /** The text after the optional leading `+`. */
  function PhoneBody(s: string): string {
    if s != [] && s[0] == '+' then s[1..] else s
  }

  /** Whether a rule of `validate` fails on the form, key by key. */
  predicate Fails(f: RegisterFormData, k: Field) {
    match k
    case FirstNameKey => f.firstName == ""
    case LastNameKey => f.lastName == ""
    case EmailKey => !EmailPattern(f.email)
    case PhoneKey => !PhonePattern(f.phone)
    case StreetKey => f.street == ""
    case CityKey => f.city == ""
    case ZipCodeKey => f.zipCode == ""
    case PasswordKey => |f.password| < MinPasswordLength
    case ConfirmPasswordKey => f.password != f.confirmPassword
  }

  /** The message each key carries. */
  function Message(k: Field): string {
    match k
    case FirstNameKey => FirstNameError
    case LastNameKey => LastNameError
    case EmailKey => EmailError
    case PhoneKey => PhoneError
    case StreetKey => StreetError
    case CityKey => CityError
    case ZipCodeKey => ZipCodeError
    case PasswordKey => PasswordError
    case ConfirmPasswordKey => ConfirmPasswordError
  }

  /** The error record `validate` leaves: the rules in order, each adding its key
      and message when it fails. */
  function RegisterErrors(f: RegisterFormData): map<Field, string> {
    var m := WithRule(map[], FirstNameKey, Fails(f, FirstNameKey), Message(FirstNameKey));
    var m := WithRule(m, LastNameKey, Fails(f, LastNameKey), Message(LastNameKey));
    var m := WithRule(m, EmailKey, Fails(f, EmailKey), Message(EmailKey));
    var m := WithRule(m, PhoneKey, Fails(f, PhoneKey), Message(PhoneKey));
    var m := WithRule(m, StreetKey, Fails(f, StreetKey), Message(StreetKey));
    var m := WithRule(m, CityKey, Fails(f, CityKey), Message(CityKey));
    var m := WithRule(m, ZipCodeKey, Fails(f, ZipCodeKey), Message(ZipCodeKey));
    var m := WithRule(m, PasswordKey, Fails(f, PasswordKey), Message(PasswordKey));
    WithRule(m, ConfirmPasswordKey, Fails(f, ConfirmPasswordKey), Message(ConfirmPasswordKey))
  }

  /** A key is in the record exactly when its rule fails. */
  lemma RegisterErrorsKeys(f: RegisterFormData, k: Field)
    ensures k in RegisterErrors(f) <==> Fails(f, k)
  {
    match k
    case FirstNameKey =>
    case LastNameKey =>
    case EmailKey =>
    case PhoneKey =>
    case StreetKey =>
    case CityKey =>
    case ZipCodeKey =>
    case PasswordKey =>
    case ConfirmPasswordKey =>
  }

  /** A key in the record carries its rule's message. */
  lemma RegisterErrorsMessages(f: RegisterFormData, k: Field)
    ensures k in RegisterErrors(f) ==> RegisterErrors(f)[k] == Message(k)
  {
    match k
    case FirstNameKey =>
    case LastNameKey =>
    case EmailKey =>
    case PhoneKey =>
    case StreetKey =>
    case CityKey =>
    case ZipCodeKey =>
    case PasswordKey =>
    case ConfirmPasswordKey =>
  }

  /** All nine rules pass. */
  predicate Acceptable(f: RegisterFormData) {
    && f.firstName != "" && f.lastName != "" && EmailPattern(f.email) && PhonePattern(f.phone)
    && f.street != "" && f.city != "" && f.zipCode != ""
    && |f.password| >= MinPasswordLength && f.password == f.confirmPassword
  }

  /** The form is valid exactly when every rule passes. */
  lemma RegisterValidIff(f: RegisterFormData)
    ensures RegisterErrors(f) == map[] <==> Acceptable(f)
  {
    var errors := RegisterErrors(f);
    if !Acceptable(f) {
      var k :| Fails(f, k);
      RegisterErrorsKeys(f, k);
    } else {
      forall k: Field ensures k !in errors {
        RegisterErrorsKeys(f, k);
      }
    }
  }

  /** An address with a local part, an `@`, a domain and a suffix matches; one
      without a dot after the `@` or with a space does not. */
  lemma EmailSamples()
    ensures EmailPattern("jean@mail.fr")
    ensures !EmailPattern("jean@mail")
    ensures !EmailPattern("jean @mail.fr")
  {
    var e := "jean@mail.fr";
    assert e[4] == '@' && e[9] == '.';
    var n := "jean@mail";
    assert forall j :: 0 <= j < |n| ==> n[j] != '.';
    var b := "jean @mail.fr";
    assert IsSpace(b[4]);
  }

  /** A number written with a leading `+` and spaces matches. */
  lemma PhoneSampleAccepted(p: string)
    requires p == "+33 6 12 34 56"
    ensures PhonePattern(p)
  {
    var body := PhoneBody(p);
    assert body == "33 6 12 34 56";
    forall k | 0 <= k < |body| ensures IsPhoneChar(body[k]) {
      assert body[k] == ' ' || '0' <= body[k] <= '9';
    }
  }

  /** Too few characters, or a `+` anywhere but in front, does not match. */
  lemma PhoneSamplesRefused(short: string, late: string)
    requires short == "06 12 34" && late == "+33 6 12 34 5+"
    ensures !PhonePattern(short)
    ensures !PhonePattern(late)
  {
    assert |short| == 8;
    assert PhoneBody(late) == late[1..];
    assert PhoneBody(late)[12] == '+';
  }

  /** The body of `validate`: a fresh record, one rule after the other. */
  method CollectErrors(f: RegisterFormData) returns (newErrors: map<Field, string>)
    ensures newErrors == RegisterErrors(f)
  {
    newErrors := map[];
    // one `if (rule fails) newErrors.key = message` per rule, in the source's order
    newErrors := CheckRule(newErrors, FirstNameKey, Fails(f, FirstNameKey), Message(FirstNameKey));
    newErrors := CheckRule(newErrors, LastNameKey, Fails(f, LastNameKey), Message(LastNameKey));
    newErrors := CheckRule(newErrors, EmailKey, Fails(f, EmailKey), Message(EmailKey));
    newErrors := CheckRule(newErrors, PhoneKey, Fails(f, PhoneKey), Message(PhoneKey));
    newErrors := CheckRule(newErrors, StreetKey, Fails(f, StreetKey), Message(StreetKey));
    newErrors := CheckRule(newErrors, CityKey, Fails(f, CityKey), Message(CityKey));
    newErrors := CheckRule(newErrors, ZipCodeKey, Fails(f, ZipCodeKey), Message(ZipCodeKey));
    newErrors := CheckRule(newErrors, PasswordKey, Fails(f, PasswordKey), Message(PasswordKey));
    newErrors := CheckRule(newErrors, ConfirmPasswordKey, Fails(f, ConfirmPasswordKey), Message(ConfirmPasswordKey));
  }

  /** The payload: the form without `confirmPassword`. Every text field is
      present, empty or not. */
  function Submitted(f: RegisterFormData): (d: RegisterData)
    ensures d.email == f.email && d.password == f.password
    ensures d.firstName == f.firstName && d.lastName == f.lastName
    ensures d.phone == Some(f.phone) && d.street == Some(f.street)
    ensures d.city == Some(f.city) && d.zipCode == Some(f.zipCode)
  {
    RegisterData(f.email, f.password, f.firstName, f.lastName,
                 Some(f.phone), Some(f.street), Some(f.city), Some(f.zipCode))
  }

  /** An accepted sign-up carries names, a full address, an e-mail address of the
      expected shape, a phone number of at least ten characters and a password of
      at least eight characters. */
  lemma SubmittedIsAcceptable(f: RegisterFormData)
    requires RegisterErrors(f) == map[]
    ensures var d := Submitted(f);
      && d.firstName != "" && d.lastName != "" && EmailPattern(d.email)
      && d.phone.Some? && |d.phone.value| >= 10
      && d.street.Some? && d.street.value != "" && d.city.Some? && d.city.value != ""
      && d.zipCode.Some? && d.zipCode.value != ""
      && |d.password| >= MinPasswordLength
  {
    RegisterValidIff(f);
  }

  /** An address picked from the suggestions. */
  datatype Address = Address(street: string, city: string, zipCode: string)

  /** The form's state (`useState` hooks). */
  class RegisterFormState {
    var formData: RegisterFormData
    var errors: map<Field, string>

    constructor ()
      ensures formData == InitialFormData && errors == map[]
    {
      formData := InitialFormData;
      errors := map[];
    }

    /** `validate`: fills a fresh error record, stores it, and answers whether it is empty. */
    method Validate() returns (ok: bool)
      modifies this`errors
      ensures errors == RegisterErrors(formData)
      ensures ok <==> errors == map[]
    {
      var f := formData;
      var newErrors := CollectErrors(f);
      errors := newErrors;
      assert formData == f;
      ok := newErrors == map[];
    }

    /** `handleAddressSelect`: the three address fields take the picked values and
        their errors are dropped; the other fields and errors stay. */
    method HandleAddressSelect(addr: Address)
      modifies this
      ensures formData == old(formData).(street := addr.street, city := addr.city, zipCode := addr.zipCode)
      ensures errors == old(errors) - {StreetKey, CityKey, ZipCodeKey}
    {
      formData := formData.(street := addr.street, city := addr.city, zipCode := addr.zipCode);
      errors := errors - {StreetKey, CityKey, ZipCodeKey};
    }

    /** `handleSubmit`: validates, then hands the payload over only when the
        error record is empty. */
    method HandleSubmit() returns (submitted: Option<RegisterData>)
      modifies this`errors
      ensures errors == RegisterErrors(formData)
      ensures submitted.Some? <==> Acceptable(formData)
      ensures submitted.Some? ==> submitted.value == Submitted(formData)
    {
      var ok := Validate();
      RegisterValidIff(formData);
      if ok {
        submitted := Some(Submitted(formData));
      } else {
        submitted := None;
      }
    }
  }

  /** Picking an address with non-empty parts and validating again reports no
      address error; the other rules give the same verdict as before. */
  lemma AddressSelectThenValidate(f: RegisterFormData, addr: Address)
    requires addr.street != "" && addr.city != "" && addr.zipCode != ""
    ensures var g := f.(street := addr.street, city := addr.city, zipCode := addr.zipCode);
      RegisterErrors(g) == RegisterErrors(f) - {StreetKey, CityKey, ZipCodeKey}
  {
    var g := f.(street := addr.street, city := addr.city, zipCode := addr.zipCode);
    var a, b := RegisterErrors(g), RegisterErrors(f) - {StreetKey, CityKey, ZipCodeKey};
    forall k: Field ensures (k in a <==> k in b) && (k in a ==> a[k] == b[k]) {
      RegisterErrorsKeys(f, k);
      RegisterErrorsKeys(g, k);
      RegisterErrorsMessages(f, k);
      RegisterErrorsMessages(g, k);
    }
  }
}
