/** The sign-in form (components/LoginForm.tsx): two required fields, the error
    record `handleSubmit` fills, the per-field clearing of an error on edit, and
    the busy flag. The form is an object whose fields the handlers update. */
module LoginForm {
  import opened Types
  import opened ErrorRecords

  /** The keys of the error record. */
  datatype Field = EmailKey | PasswordKey

  const EmailRequired := "Email requis"
  const PasswordRequired := "Mot de passe requis"

  /** What `onSubmit` receives: the two fields exactly as typed. */
  datatype Credentials = Credentials(email: string, password: string)

  /** The record `handleSubmit` builds: an empty field is a missing field; nothing
      is trimmed, so a field of spaces passes. */
  function LoginErrors(email: string, password: string): (errors: map<Field, string>)
    ensures EmailKey in errors <==> email == ""
    ensures PasswordKey in errors <==> password == ""
    ensures EmailKey in errors ==> errors[EmailKey] == EmailRequired
    ensures PasswordKey in errors ==> errors[PasswordKey] == PasswordRequired
  {
    var m := WithRule(map[], EmailKey, email == "", EmailRequired);
    WithRule(m, PasswordKey, password == "", PasswordRequired)
  }

  /** The record is empty exactly when both fields are filled. */
  lemma LoginValidIff(email: string, password: string)
    ensures LoginErrors(email, password) == map[] <==> email != "" && password != ""
  {
    var errors := LoginErrors(email, password);
    if email == "" {
      assert EmailKey in errors;
    } else if password == "" {
      assert PasswordKey in errors;
    } else {
      forall k: Field ensures k !in errors {
        match k
        case EmailKey =>
        case PasswordKey =>
      }
    }
  }

  /** The error the input under a field shows: a present, non-empty message. */
  function ShownError(errors: map<Field, string>, k: Field): (shown: Option<string>)
    ensures shown.Some? <==> k in errors && errors[k] != ""
    ensures shown.Some? ==> shown.value == errors[k]
  {
    if k in errors && errors[k] != "" then Some(errors[k]) else None
  }

  /** `if (errors.k) setErrors({ ...errors, k: '' })`: a shown error is blanked,
      the key stays; otherwise the record is left as it is. */
  function Cleared(errors: map<Field, string>, k: Field): map<Field, string> {
    if k in errors && errors[k] != "" then errors[k := ""] else errors
  }

  /** Editing a field hides that field's error and no other, and a second edit
      changes nothing more. */
  lemma ClearedSpec(errors: map<Field, string>, k: Field, j: Field)
    ensures ShownError(Cleared(errors, k), k).None?
    ensures j != k ==> ShownError(Cleared(errors, k), j) == ShownError(errors, j)
    ensures Cleared(errors, k).Keys == errors.Keys
    ensures Cleared(Cleared(errors, k), k) == Cleared(errors, k)
  {
  }

  /** A sign-in in progress, by password or with a provider. */
  datatype SocialProvider = Google | Apple

  /** `isAnyLoading`: the inputs and buttons are disabled while any sign-in is under way. */
  function IsAnyLoading(isLoading: bool, socialLoading: Option<SocialProvider>): (busy: bool)
    ensures isLoading ==> busy
    ensures socialLoading.Some? ==> busy
    ensures busy ==> isLoading || socialLoading.Some?
  {
    isLoading || socialLoading != None
  }

  /** The form's state (`useState` hooks). */
  class LoginFormState {
    var email: string
    var password: string
    var errors: map<Field, string>

    constructor ()
      ensures email == "" && password == "" && errors == map[]
    {
      email := "";
      password := "";
      errors := map[];
    }

    /** `handleSubmit`: with a missing field the new record replaces the errors and
        nothing is sent; with both fields the credentials are handed over as typed
        and the errors are left as they were. */
    method HandleSubmit() returns (sent: Option<Credentials>)
      modifies this`errors
      ensures sent.Some? <==> email != "" && password != ""
      ensures sent.Some? ==> sent.value == Credentials(email, password) && errors == old(errors)
      ensures sent.None? ==> errors == LoginErrors(email, password)
    {
      var e, p := email, password;
      var newErrors := map[];
      newErrors := CheckRule(newErrors, EmailKey, e == "", EmailRequired);
      newErrors := CheckRule(newErrors, PasswordKey, p == "", PasswordRequired);
      LoginValidIff(e, p);
      if newErrors != map[] {
        errors := newErrors;
        sent := None;
        return;
      }
      sent := Some(Credentials(e, p));
    }

    /** The e-mail input's `onChange`. */
    method EditEmail(value: string)
      modifies this`email, this`errors
      ensures email == value
      ensures errors == Cleared(old(errors), EmailKey)
    {
      email := value;
      if EmailKey in errors && errors[EmailKey] != "" {
        errors := errors[EmailKey := ""];
      }
    }

    /** The password input's `onChange`. */
    method EditPassword(value: string)
      modifies this`password, this`errors
      ensures password == value
      ensures errors == Cleared(old(errors), PasswordKey)
    {
      password := value;
      if PasswordKey in errors && errors[PasswordKey] != "" {
        errors := errors[PasswordKey := ""];
      }
    }
  }

  /** After a refused submit of an empty form, typing an e-mail address hides the
      e-mail error and still shows the password error. */
  lemma EditAfterRefusal()
    ensures var errors := Cleared(LoginErrors("", ""), EmailKey);
      ShownError(errors, EmailKey).None? && ShownError(errors, PasswordKey) == Some(PasswordRequired)
  {
    var before := LoginErrors("", "");
    ClearedSpec(before, EmailKey, PasswordKey);
  }
}
