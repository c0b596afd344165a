/** The dashboard (components/Home.tsx): the join dialog with its check, the
    code input and the invitation paste; the three event buckets; and the
    replacement of an updated event in the list. The clipboard, the store's
    join procedures, the clock and date parsing are inputs. */
module Home {
  import opened Types
  import opened Text
  import EventStore
  import EventTransforms
  import EventForm
  import SharePassword
  import Permissions

  // ----- The join dialog (handleJoin, :47-64) -----

  /** `joinData`, `joinError` and `showJoinModal`. */
  datatype JoinDialog = JoinDialog(code: string, password: string, error: string, open: bool)

  const MissingFields: string := "Saisis la clé de partage et le mot de passe."
  const DefaultJoinError: string := "Clé ou mot de passe incorrect."
  const ClipboardError: string := "Impossible de lire le presse-papier."

  /** What a click on "Envoyer demande" leaves behind: the dialog, the
      credentials sent to the store (none when the check stops it) and whether
      the event list is fetched again. */
  datatype JoinStep = JoinStep(dialog: JoinDialog, sent: Option<(string, string)>, refetch: bool)

  function HandleJoin(d: JoinDialog, user: User,
                      findEventId: (string, string) -> Result<Option<string>>,
                      addPendingOrganizer: (string, string, string) -> Option<Option<string>>): (r: JoinStep)
    ensures Trim(d.code) == "" || Trim(d.password) == "" ==>
      r == JoinStep(d.(error := MissingFields), None, false)
    ensures Trim(d.code) != "" && Trim(d.password) != "" ==>
      var outcome := EventStore.RequestJoinByCodeAndPassword(Trim(d.code), Trim(d.password), user,
                                                             findEventId, addPendingOrganizer);
      && r.sent == Some((Trim(d.code), Trim(d.password)))
      && (outcome.success ==> r.dialog == JoinDialog("", "", "", false) && r.refetch)
      && (!outcome.success ==> r.dialog == d.(error := OrElse(outcome.error.GetOr(""), DefaultJoinError)) && !r.refetch)
  {
    var code := Trim(d.code);
    var password := Trim(d.password);
    if code == "" || password == "" then JoinStep(d.(error := MissingFields), None, false)
    else
      var outcome := EventStore.RequestJoinByCodeAndPassword(code, password, user, findEventId, addPendingOrganizer);
      if !outcome.success then
        JoinStep(d.(error := OrElse(outcome.error.GetOr(""), DefaultJoinError)), Some((code, password)), false)
      else JoinStep(JoinDialog("", "", "", false), Some((code, password)), true)
  }

  /** A blank field stops the join before the store is asked: the outcome is
      the same whatever the store would answer. */
  lemma BlankJoinSkipsStore(d: JoinDialog, user: User,
                            f1: (string, string) -> Result<Option<string>>,
                            a1: (string, string, string) -> Option<Option<string>>,
                            f2: (string, string) -> Result<Option<string>>,
                            a2: (string, string, string) -> Option<Option<string>>)
    requires Trim(d.code) == "" || Trim(d.password) == ""
    ensures HandleJoin(d, user, f1, a1) == HandleJoin(d, user, f2, a2)
    ensures HandleJoin(d, user, f1, a1).sent.None?
  {
  }

  /** A dialog left open shows a non-empty message and keeps what was typed. */
  lemma OpenDialogExplains(d: JoinDialog, user: User,
                           findEventId: (string, string) -> Result<Option<string>>,
                           addPendingOrganizer: (string, string, string) -> Option<Option<string>>)
    ensures var r := HandleJoin(d, user, findEventId, addPendingOrganizer);
      r.dialog.open ==> r.dialog.error != "" && r.dialog.code == d.code && r.dialog.password == d.password
  {
    var r := HandleJoin(d, user, findEventId, addPendingOrganizer);
    if Trim(d.code) != "" && Trim(d.password) != "" {
      var outcome := EventStore.RequestJoinByCodeAndPassword(Trim(d.code), Trim(d.password), user,
                                                             findEventId, addPendingOrganizer);
      if !outcome.success {
        assert r.dialog.error == OrElse(outcome.error.GetOr(""), DefaultJoinError);
      }
    }
  }

  /** The code field's `onChange`: the typed text, uppercased. */
  function OnCodeInput(d: JoinDialog, typed: string): (r: JoinDialog)
    ensures r == d.(code := r.code) && |r.code| == |typed|
    ensures forall i :: 0 <= i < |r.code| ==> UpperChar(r.code[i]) == r.code[i]
  {
    d.(code := ToUpper(typed))
  }

  /** Typing the field's own content again changes nothing. */
  lemma CodeInputIdempotent(d: JoinDialog, typed: string)
    ensures OnCodeInput(OnCodeInput(d, typed), OnCodeInput(d, typed).code) == OnCodeInput(d, typed)
  {
    var c := OnCodeInput(d, typed).code;
    assert ToUpper(c) == c;
  }

  // ----- The invitation paste (handlePasteInvitation, :66-85) -----

  /** The regular expressions' case-insensitive comparison, for the letters of
      the two patterns: an ASCII letter matches either case, `é` matches `É`. */
  function FoldCase(c: char): char {
    if c == 'é' then 'É' else UpperChar(c)
  }

  /** The pattern word `w` (compared without case) starts at `i`. */
  predicate WordAt(s: string, i: nat, w: string) {
    i + |w| <= |s| && forall k :: 0 <= k < |w| ==> FoldCase(s[i + k]) == FoldCase(w[k])
  }

  /** A word written exactly as in the pattern matches it. */
  lemma WordAtExact(s: string, i: nat, w: string)
    requires i + |w| <= |s| && s[i..i + |w|] == w
    ensures WordAt(s, i, w)
  {
    assert forall k :: 0 <= k < |w| ==> s[i + k] == w[k];
  }

  /** The end of a run of `\s*` from `i`. */
  function SkipSpaces(s: string, i: nat): (j: nat)
    requires i <= |s|
    ensures i <= j <= |s| && (j == |s| || !IsSpace(s[j]))
    ensures forall k :: i <= k < j ==> IsSpace(s[k])
    decreases |s| - i
  {
    if i < |s| && IsSpace(s[i]) then SkipSpaces(s, i + 1) else i
  }

  /** The end of a run of `.+` from `i`: the next line terminator, or the end. */
  function LineEnd(s: string, i: nat): (j: nat)
    requires i <= |s|
    ensures i <= j <= |s| && (j == |s| || IsLineTerminator(s[j]))
    ensures forall k :: i <= k < j ==> !IsLineTerminator(s[k])
    decreases |s| - i
  {
    if i < |s| && !IsLineTerminator(s[i]) then LineEnd(s, i + 1) else i
  }

  /** The last position in `[p, n)` that `.` accepts. */
  function LastUsable(s: string, p: nat, n: nat): (r: Option<nat>)
    requires p <= n <= |s|
    ensures r.Some? ==> p <= r.value < n && !IsLineTerminator(s[r.value])
    ensures r.None? ==> forall k :: p <= k < n ==> IsLineTerminator(s[k])
    decreases n
  {
    if n <= p then None
    else if !IsLineTerminator(s[n - 1]) then Some(n - 1)
    else LastUsable(s, p, n - 1)
  }

  /** The group of `\s*(.+)` matched from `p`: the spaces are skipped greedily,
      giving back characters only when nothing else is left for `.+`. */
  function Capture(s: string, p: nat): (r: Option<string>)
    requires p <= |s|
    ensures r.Some? ==> r.value != [] && forall k :: 0 <= k < |r.value| ==> !IsLineTerminator(r.value[k])
  {
    var q := SkipSpaces(s, p);
    if q < |s| then Some(s[q..LineEnd(s, q)])
    else
      match LastUsable(s, p, |s|)
      case Some(r) => Some(s[r..LineEnd(s, r)])
      case None => None
  }

  predicate IsSeparator(c: char) {
    c == ':' || c == '-'
  }

  datatype Pattern = KeyPattern | PasswordPattern

  /** `Clé\s*(?:de partage)?\s*[:\-]\s*(.+)` tried at `i`. A space cannot start
      `de partage` or be a separator, so the runs of spaces are taken whole. */
  function KeyAt(s: string, i: nat): Option<string>
    requires i <= |s|
  {
    if !WordAt(s, i, "Clé") then None
    else
      var j := SkipSpaces(s, i + 3);
      if WordAt(s, j, "de partage") then
        var k := SkipSpaces(s, j + 10);
        if k < |s| && IsSeparator(s[k]) then Capture(s, k + 1) else None
      else if j < |s| && IsSeparator(s[j]) then Capture(s, j + 1)
      else None
  }

  /** `Mot\s*de\s*passe\s*[:\-]\s*(.+)` tried at `i`. */
  function PasswordAt(s: string, i: nat): Option<string>
    requires i <= |s|
  {
    if !WordAt(s, i, "Mot") then None
    else
      var j := SkipSpaces(s, i + 3);
      if !WordAt(s, j, "de") then None
      else
        var k := SkipSpaces(s, j + 2);
        if !WordAt(s, k, "passe") then None
        else
          var m := SkipSpaces(s, k + 5);
          if m < |s| && IsSeparator(s[m]) then Capture(s, m + 1) else None
  }

  function MatchAt(p: Pattern, s: string, i: nat): Option<string>
    requires i <= |s|
  {
    match p
    case KeyPattern => KeyAt(s, i)
    case PasswordPattern => PasswordAt(s, i)
  }

  /** `line.match(re)`: the group of the leftmost match, if any. */
  function Search(p: Pattern, s: string, i: nat): (r: Option<string>)
    requires i <= |s|
    ensures r.Some? ==> exists k :: i <= k < |s| && MatchAt(p, s, k) == r
    ensures r.None? ==> forall k :: i <= k < |s| ==> MatchAt(p, s, k).None?
    decreases |s| - i
  {
    if i == |s| then None
    else if MatchAt(p, s, i).Some? then MatchAt(p, s, i)
    else Search(p, s, i + 1)
  }

  function Match(p: Pattern, s: string): Option<string> {
    Search(p, s, 0)
  }

  function KeyMatch(line: string): Option<string> {
    Match(KeyPattern, line)
  }

  function PasswordMatch(line: string): Option<string> {
    Match(PasswordPattern, line)
  }

  /** The lines of the pasted text, trimmed. Splitting on `\n` and trimming
      gives what splitting on `\r?\n` and trimming gives, since `\r` is
      white space. */
  predicate IsNewline(c: char) {
    c == '\n'
  }

  function PastedLines(text: string): (lines: seq<string>)
    ensures |lines| == |Split(text, IsNewline)|
    ensures forall k :: 0 <= k < |lines| ==> lines[k] == Trim(Split(text, IsNewline)[k])
    ensures forall k :: 0 <= k < |lines| ==> Trim(lines[k]) == lines[k]
  {
    var pieces := Split(text, IsNewline);
    seq(|pieces|, k requires 0 <= k < |pieces| => TrimIdempotent(pieces[k]); Trim(pieces[k]))
  }

  /** The value the loop leaves in `code` (key pattern) or `password` after the
      first `n` lines: the trimmed group of the last matching one of them, or ""
      when none matches. */
  function LastCaptureUpTo(matches: string -> Option<string>, lines: seq<string>, n: nat): string
    requires n <= |lines|
  {
    if n == 0 then ""
    else
      match matches(lines[n - 1])
      case Some(g) => Trim(g)
      case None => LastCaptureUpTo(matches, lines, n - 1)
  }

  /** The value the loop leaves once every line has been scanned. */
  function LastCapture(matches: string -> Option<string>, lines: seq<string>): string {
    LastCaptureUpTo(matches, lines, |lines|)
  }

  /** The last matching line decides; with no matching line the result is "". */
  lemma LastCaptureSpec(matches: string -> Option<string>, lines: seq<string>)
    ensures (forall i :: 0 <= i < |lines| ==> matches(lines[i]).None?) ==> LastCapture(matches, lines) == ""
    ensures forall i :: 0 <= i < |lines| && matches(lines[i]).Some?
                        && (forall j :: i < j < |lines| ==> matches(lines[j]).None?) ==>
              LastCapture(matches, lines) == Trim(matches(lines[i]).value)
  {
    if forall i :: 0 <= i < |lines| ==> matches(lines[i]).None? {
      NoCaptureUpTo(matches, lines, |lines|);
    }
    forall i | 0 <= i < |lines| && matches(lines[i]).Some? && (forall j :: i < j < |lines| ==> matches(lines[j]).None?)
      ensures LastCapture(matches, lines) == Trim(matches(lines[i]).value)
    {
      LastCaptureAt(matches, lines, |lines|, i);
    }
  }

  lemma {:induction false} NoCaptureUpTo(matches: string -> Option<string>, lines: seq<string>, n: nat)
    requires n <= |lines|
    requires forall i :: 0 <= i < n ==> matches(lines[i]).None?
    ensures LastCaptureUpTo(matches, lines, n) == ""
  {
    if n > 0 {
      NoCaptureUpTo(matches, lines, n - 1);
    }
  }

  lemma {:induction false} LastCaptureAt(matches: string -> Option<string>, lines: seq<string>, n: nat, i: nat)
    requires i < n <= |lines| && matches(lines[i]).Some?
    requires forall j :: i < j < n ==> matches(lines[j]).None?
    ensures LastCaptureUpTo(matches, lines, n) == Trim(matches(lines[i]).value)
  {
    if i < n - 1 {
      assert matches(lines[n - 1]).None?;
      LastCaptureAt(matches, lines, n - 1, i);
    }
  }

  /** The dialog after the scan found `code` and `password`: nothing changes when
      both are empty; otherwise the found ones replace the fields and the error is cleared. */
  function ApplyPaste(d: JoinDialog, code: string, password: string): (r: JoinDialog)
    ensures code == "" && password == "" ==> r == d
    ensures code != "" || password != "" ==>
      r.error == "" && r.open == d.open
      && r.code == OrElse(code, d.code) && r.password == OrElse(password, d.password)
  {
    if code != "" || password != "" then
      d.(code := OrElse(code, d.code), password := OrElse(password, d.password), error := "")
    else d
  }

  /** The dialog after pasting `text`. */
  function PasteOutcome(text: string, d: JoinDialog): JoinDialog {
    var lines := PastedLines(text);
    ApplyPaste(d, LastCapture(KeyMatch, lines), LastCapture(PasswordMatch, lines))
  }

  /** `handlePasteInvitation`. `clipboard` is `None` when the clipboard cannot be read. */
  method PasteInvitation(clipboard: Option<string>, d: JoinDialog) returns (r: JoinDialog)
    ensures clipboard.None? ==> r == d.(error := ClipboardError)
    ensures clipboard.Some? ==> r == PasteOutcome(clipboard.value, d)
  {
    if clipboard.None? {
      return d.(error := ClipboardError);
    }
    var lines := PastedLines(clipboard.value);
    var code, password := ScanLines(lines);
    r := ApplyPaste(d, code, password);
  }

  /** The paste loop over the trimmed lines: each field keeps the group of the
      last line that matched its pattern. */
  method ScanLines(lines: seq<string>) returns (code: string, password: string)
    ensures code == LastCapture(KeyMatch, lines)
    ensures password == LastCapture(PasswordMatch, lines)
  {
    code, password := "", "";
    for i := 0 to |lines|
      invariant code == LastCaptureUpTo(KeyMatch, lines, i)
      invariant password == LastCaptureUpTo(PasswordMatch, lines, i)
    {
      code, password := ScanLine(lines, i, code, password);
    }
  }

  /** One turn of the paste loop: a match of either pattern in the line
      overwrites that field with its trimmed group. */
  method ScanLine(lines: seq<string>, i: nat, code: string, password: string)
    returns (code': string, password': string)
    requires i < |lines|
    requires code == LastCaptureUpTo(KeyMatch, lines, i)
    requires password == LastCaptureUpTo(PasswordMatch, lines, i)
    ensures code' == LastCaptureUpTo(KeyMatch, lines, i + 1)
    ensures password' == LastCaptureUpTo(PasswordMatch, lines, i + 1)
  {
    code', password' := code, password;
    var keyMatch := KeyMatch(lines[i]);
    if keyMatch.Some? {
      code' := Trim(keyMatch.value);
    }
    var passwordMatch := PasswordMatch(lines[i]);
    if passwordMatch.Some? {
      password' := Trim(passwordMatch.value);
    }
  }

  // Facts about the two patterns.

  lemma LineTerminatorIsSpace(c: char)
    requires IsLineTerminator(c)
    ensures IsSpace(c)
  {
  }

  /** Both patterns need a separator somewhere in the line. */
  lemma {:induction false} NoSeparatorNoMatch(p: Pattern, s: string, i: nat)
    requires i <= |s|
    requires forall k :: 0 <= k < |s| ==> !IsSeparator(s[k])
    ensures Search(p, s, i).None?
    decreases |s| - i
  {
    if i < |s| {
      NoSeparatorNoMatch(p, s, i + 1);
    }
  }

  /** A key match at `i` has an `é` or `É` at `i + 2`. */
  lemma KeyNeedsAccent(s: string, i: nat)
    requires i <= |s|
    ensures KeyAt(s, i).Some? ==> i + 3 <= |s| && (s[i + 2] == 'é' || s[i + 2] == 'É')
  {
    if KeyAt(s, i).Some? {
      assert WordAt(s, i, "Clé");
      assert FoldCase(s[i + 2]) == FoldCase("Clé"[2]);
    }
  }

  /** The key pattern needs an `é` or `É` somewhere in the line. */
  lemma {:induction false} NoAccentNoKey(s: string, i: nat)
    requires i <= |s|
    requires forall k :: 0 <= k < |s| ==> s[k] != 'é' && s[k] != 'É'
    ensures Search(KeyPattern, s, i).None?
    decreases |s| - i
  {
    if i < |s| {
      KeyNeedsAccent(s, i);
      NoAccentNoKey(s, i + 1);
    }
  }

  /** A text with no line terminator, starting and ending with a non-space,
      placed right after the separator's space is the whole group. */
  lemma CaptureOfValue(s: string, p: nat, v: string)
    requires p < |s| && s[p] == ' ' && s[p + 1..] == v
    requires v != [] && Trim(v) == v && forall k :: 0 <= k < |v| ==> !IsLineTerminator(v[k])
    ensures Capture(s, p) == Some(v)
  {
    assert s[p + 1] == v[0];
    assert SkipSpaces(s, p + 1) == p + 1;
    assert SkipSpaces(s, p) == p + 1;
    assert forall k :: p + 1 <= k < |s| ==> s[k] == v[k - p - 1];
    assert LineEnd(s, p + 1) == |s|;
    assert s[p + 1..LineEnd(s, p + 1)] == v;
  }

  /** Trimming keeps a text free of line terminators. */
  lemma TrimKeepsNoTerminator(s: string)
    requires forall k :: 0 <= k < |s| ==> !IsLineTerminator(s[k])
    ensures forall k :: 0 <= k < |Trim(s)| ==> !IsLineTerminator(Trim(s)[k])
  {
    var t := TrimStart(s);
    forall k | 0 <= k < |Trim(s)| ensures !IsLineTerminator(Trim(s)[k]) {
      assert Trim(s)[k] == t[k] == s[|s| - |t| + k];
    }
  }

  /** Where the words of the share-key prefix sit. */
  lemma KeyPrefixShape(v: string)
    ensures var s := EventTransforms.KeyPrefix + v;
      && s[0..3] == "Clé" && s[3] == ' ' && s[4] == 'd' && s[4..14] == "de partage" && s[14] == ' '
      && s[15] == ':' && s[16] == ' ' && s[17..] == v
  {
    var s := EventTransforms.KeyPrefix + v;
    assert s[..17] == EventTransforms.KeyPrefix;
  }

  /** A single space before a non-space is skipped as a whole run. */
  lemma SkipOneSpace(s: string, i: nat)
    requires i + 1 < |s| && s[i] == ' ' && !IsSpace(s[i + 1])
    ensures SkipSpaces(s, i) == i + 1
  {
    assert SkipSpaces(s, i + 1) == i + 1;
  }

  /** The key pattern at the start of a line laid out as `Clé de partage : v`. */
  lemma KeyAtOf(s: string, v: string)
    requires 17 <= |s| && WordAt(s, 0, "Clé") && s[3] == ' ' && s[4] == 'd' && WordAt(s, 4, "de partage")
    requires s[14] == ' ' && s[15] == ':' && s[16] == ' ' && s[17..] == v
    requires v != [] && Trim(v) == v && forall k :: 0 <= k < |v| ==> !IsLineTerminator(v[k])
    ensures KeyAt(s, 0) == Some(v)
  {
    SkipOneSpace(s, 3);
    SkipOneSpace(s, 14);
    CaptureOfValue(s, 16, v);
  }

  /** A value behind the share-key prefix is found again by the key pattern. */
  lemma KeyLineOf(v: string)
    requires v != [] && Trim(v) == v && forall k :: 0 <= k < |v| ==> !IsLineTerminator(v[k])
    ensures Match(KeyPattern, EventTransforms.KeyPrefix + v) == Some(v)
  {
    var s := EventTransforms.KeyPrefix + v;
    KeyPrefixShape(v);
    WordAtExact(s, 0, "Clé");
    WordAtExact(s, 4, "de partage");
    KeyAtOf(s, v);
  }

  /** The share-key line of an invitation gives back the trimmed key. */
  lemma KeyLineMatches(code: string)
    requires Trim(code) != "" && forall k :: 0 <= k < |code| ==> !IsLineTerminator(code[k])
    ensures var line := EventTransforms.KeyPrefix + Trim(code);
      Trim(line) == line && Match(KeyPattern, line) == Some(Trim(code))
  {
    var v := Trim(code);
    TrimIdempotent(code);
    TrimKeepsNoTerminator(code);
    TrimOfTrimmed(EventTransforms.KeyPrefix + v);
    KeyLineOf(v);
  }

  /** Where the words of the password prefix sit. */
  lemma PasswordPrefixShape(v: string)
    ensures var s := EventTransforms.PasswordPrefix + v;
      && s[0..3] == "Mot" && s[3] == ' ' && s[4] == 'd' && s[4..6] == "de" && s[6] == ' ' && s[7] == 'p'
      && s[7..12] == "passe"
      && s[12] == ' ' && s[13] == ':' && s[14] == ' ' && s[15..] == v
  {
    var s := EventTransforms.PasswordPrefix + v;
    assert s[..15] == EventTransforms.PasswordPrefix;
  }

  /** The password pattern at the start of a line laid out as `Mot de passe : v`. */
  lemma PasswordAtOf(s: string, v: string)
    requires 15 <= |s| && WordAt(s, 0, "Mot") && s[3] == ' ' && s[4] == 'd' && WordAt(s, 4, "de")
    requires s[6] == ' ' && s[7] == 'p' && WordAt(s, 7, "passe") && s[12] == ' ' && s[13] == ':' && s[14] == ' ' && s[15..] == v
    requires v != [] && Trim(v) == v && forall k :: 0 <= k < |v| ==> !IsLineTerminator(v[k])
    ensures PasswordAt(s, 0) == Some(v)
  {
    SkipOneSpace(s, 3);
    SkipOneSpace(s, 6);
    SkipOneSpace(s, 12);
    CaptureOfValue(s, 14, v);
  }

  /** A value behind the password prefix is found again by the password pattern. */
  lemma PasswordLineOf(v: string)
    requires v != [] && Trim(v) == v && forall k :: 0 <= k < |v| ==> !IsLineTerminator(v[k])
    ensures Match(PasswordPattern, EventTransforms.PasswordPrefix + v) == Some(v)
  {
    var s := EventTransforms.PasswordPrefix + v;
    PasswordPrefixShape(v);
    WordAtExact(s, 0, "Mot");
    WordAtExact(s, 4, "de");
    WordAtExact(s, 7, "passe");
    PasswordAtOf(s, v);
  }

  /** The password line of an invitation gives back the trimmed password. */
  lemma PasswordLineMatches(password: string)
    requires Trim(password) != "" && forall k :: 0 <= k < |password| ==> !IsLineTerminator(password[k])
    ensures var line := EventTransforms.PasswordPrefix + Trim(password);
      Trim(line) == line && Match(PasswordPattern, line) == Some(Trim(password))
  {
    var v := Trim(password);
    TrimIdempotent(password);
    TrimKeepsNoTerminator(password);
    TrimOfTrimmed(EventTransforms.PasswordPrefix + v);
    PasswordLineOf(v);
  }

  // The invitation text pasted back (EventDetail's invitation, read by the paste).

  /** A text on one line. */
  predicate SingleLine(s: string) {
    forall k :: 0 <= k < |s| ==> !IsLineTerminator(s[k])
  }

  /** Trimming removes characters and never adds one. */
  lemma TrimKeepsAbsent(s: string, c: char)
    requires c !in s
    ensures c !in Trim(s)
  {
    var t := TrimStart(s);
    assert forall k :: 0 <= k < |t| ==> t[k] == s[|s| - |t| + k];
    assert forall k :: 0 <= k < |Trim(s)| ==> Trim(s)[k] == t[k];
  }

  lemma SingleLineAppend(a: string, b: string)
    requires SingleLine(a) && SingleLine(b)
    ensures SingleLine(a + b)
  {
    assert forall k :: |a| <= k < |a + b| ==> (a + b)[k] == b[k - |a|];
  }

  /** The signature line is a single trimmed line without a separator. */
  lemma SignatureShape()
    ensures var sig := EventTransforms.Signature;
      SingleLine(sig) && Trim(sig) == sig && forall k :: 0 <= k < |sig| ==> !IsSeparator(sig[k])
  {
    var sig := EventTransforms.Signature;
    assert sig[0] == '—' && sig[|sig| - 1] == 't';
    TrimOfTrimmed(sig);
  }

  /** Where the two prefixes start and that they hold no line terminator. */
  lemma PrefixesShape()
    ensures SingleLine(EventTransforms.KeyPrefix) && !IsSpace(EventTransforms.KeyPrefix[0])
    ensures SingleLine(EventTransforms.PasswordPrefix) && !IsSpace(EventTransforms.PasswordPrefix[0])
    ensures 'é' !in EventTransforms.PasswordPrefix && 'É' !in EventTransforms.PasswordPrefix
  {
    var kp, pp := EventTransforms.KeyPrefix, EventTransforms.PasswordPrefix;
    assert kp[0] == 'C' && pp[0] == 'M';
    assert SingleLine(kp) && SingleLine(pp);
    assert forall k :: 0 <= k < |pp| ==> pp[k] != 'é' && pp[k] != 'É';
  }

  /** A single trimmed line behind a single-line prefix that starts with a
      non-space is a single trimmed line. */
  lemma PrefixedLine(prefix: string, v: string)
    requires prefix != [] && !IsSpace(prefix[0]) && SingleLine(prefix)
    requires v != "" && Trim(v) == v && SingleLine(v)
    ensures SingleLine(prefix + v) && Trim(prefix + v) == prefix + v
  {
    SingleLineAppend(prefix, v);
    TrimOfTrimmed(prefix + v);
  }

  /** Each credential line of an invitation is a single trimmed line. */
  lemma InvitationTailShape(code: string, password: string)
    requires Trim(code) != "" && SingleLine(code)
    requires Trim(password) != "" && SingleLine(password)
    ensures var tail := EventTransforms.InvitationCredentials(code, password);
      forall k :: 0 <= k < |tail| ==> SingleLine(tail[k]) && Trim(tail[k]) == tail[k]
  {
    TrimIdempotent(code);
    TrimIdempotent(password);
    TrimKeepsNoTerminator(code);
    TrimKeepsNoTerminator(password);
    PrefixesShape();
    SignatureShape();
    TailShape(EventTransforms.KeyPrefix, EventTransforms.PasswordPrefix, EventTransforms.Signature,
              Trim(code), Trim(password));
  }

  lemma TailShape(keyPrefix: string, passwordPrefix: string, sig: string, v: string, w: string)
    requires keyPrefix != [] && !IsSpace(keyPrefix[0]) && SingleLine(keyPrefix)
    requires passwordPrefix != [] && !IsSpace(passwordPrefix[0]) && SingleLine(passwordPrefix)
    requires SingleLine(sig) && Trim(sig) == sig
    requires v != "" && Trim(v) == v && SingleLine(v)
    requires w != "" && Trim(w) == w && SingleLine(w)
    ensures var tail := [keyPrefix + v, passwordPrefix + w, "", sig];
      forall k :: 0 <= k < |tail| ==> SingleLine(tail[k]) && Trim(tail[k]) == tail[k]
  {
    PrefixedLine(keyPrefix, v);
    PrefixedLine(passwordPrefix, w);
    TrimOfTrimmed("");
    FourTrimmedLines([keyPrefix + v, passwordPrefix + w, "", sig]);
  }

  lemma FourTrimmedLines(lines: seq<string>)
    requires |lines| == 4
    requires SingleLine(lines[0]) && Trim(lines[0]) == lines[0] && SingleLine(lines[1]) && Trim(lines[1]) == lines[1]
    requires SingleLine(lines[2]) && Trim(lines[2]) == lines[2] && SingleLine(lines[3]) && Trim(lines[3]) == lines[3]
    ensures forall k :: 0 <= k < |lines| ==> SingleLine(lines[k]) && Trim(lines[k]) == lines[k]
  {
    forall k | 0 <= k < |lines| ensures SingleLine(lines[k]) && Trim(lines[k]) == lines[k] {
      assert k == 0 || k == 1 || k == 2 || k == 3;
    }
  }

  /** `lines` ends with `tail`. */
  predicate EndsWith(lines: seq<string>, tail: seq<string>) {
    |lines| >= |tail| && lines[|lines| - |tail|..] == tail
  }

  /** Trimmed pieces at the end of the split text are the last pasted lines. */
  lemma PastedLinesEnd(text: string, front: seq<string>, tail: seq<string>)
    requires Split(text, IsNewline) == front + tail
    requires forall k :: 0 <= k < |tail| ==> Trim(tail[k]) == tail[k]
    ensures EndsWith(PastedLines(text), tail)
  {
    var lines := PastedLines(text);
    forall k | 0 <= k < |tail| ensures lines[|front| + k] == tail[k] {
      assert Split(text, IsNewline)[|front| + k] == tail[k];
    }
  }

  /** Lines joined after some text and a line feed come back, unchanged, as
      the last pasted lines when each is a single trimmed line. */
  lemma PastedTail(front: string, tail: seq<string>)
    requires tail != []
    requires forall k :: 0 <= k < |tail| ==> SingleLine(tail[k]) && Trim(tail[k]) == tail[k]
    ensures EndsWith(PastedLines(front + "\n" + Join(tail, "\n")), tail)
  {
    var text := front + "\n" + Join(tail, "\n");
    assert Split(text, IsNewline) == Split(front, IsNewline) + tail by {
      SplitAround(front, '\n', Join(tail, "\n"), IsNewline);
      SplitJoin(tail, '\n', IsNewline);
    }
    PastedLinesEnd(text, Split(front, IsNewline), tail);
  }

  /** The invitation text is its introduction, a line feed and its credential lines. */
  lemma InvitationTextParts(e: Event)
    ensures EventTransforms.InvitationText(e)
            == Join(EventTransforms.InvitationIntro(e.title), "\n") + "\n"
               + Join(EventTransforms.InvitationCredentials(e.shareCode, e.sharePassword), "\n")
  {
    JoinAppend(EventTransforms.InvitationIntro(e.title),
               EventTransforms.InvitationCredentials(e.shareCode, e.sharePassword), "\n");
  }

  /** When the last lines end with `tail`, the last line of `tail` that
      `matches` accepts gives the captured value. */
  lemma LastCaptureOfTail(matches: string -> Option<string>, lines: seq<string>, tail: seq<string>, i: nat)
    requires EndsWith(lines, tail)
    requires i < |tail| && matches(tail[i]).Some?
    requires forall j :: i < j < |tail| ==> matches(tail[j]).None?
    ensures LastCapture(matches, lines) == Trim(matches(tail[i]).value)
  {
    var m := |lines| - |tail|;
    assert lines[m + i] == tail[i];
    forall j | m + i < j < |lines| ensures matches(lines[j]).None? {
      assert lines[j] == tail[j - m];
    }
    LastCaptureSpec(matches, lines);
  }

  /** The key pattern finds the key in the first credential line. */
  lemma CredentialKeyFound(code: string, password: string)
    requires Trim(code) != "" && SingleLine(code)
    ensures KeyMatch(EventTransforms.InvitationCredentials(code, password)[0]) == Some(Trim(code))
  {
    var keyLine := EventTransforms.InvitationCredentials(code, password)[0];
    assert keyLine == EventTransforms.KeyPrefix + Trim(code);
    KeyLineMatches(code);
  }

  /** No credential line after the first matches the key pattern when the
      password has no `é`. */
  lemma CredentialKeyOnlyFirst(code: string, password: string)
    requires 'é' !in password && 'É' !in password
    ensures var tail := EventTransforms.InvitationCredentials(code, password);
      forall j :: 0 < j < |tail| ==> KeyMatch(tail[j]).None?
  {
    var tail := EventTransforms.InvitationCredentials(code, password);
    TrimKeepsAbsent(password, 'é');
    TrimKeepsAbsent(password, 'É');
    PrefixesShape();
    SignatureShape();
    NoKeyAfterKey(tail, EventTransforms.PasswordPrefix, EventTransforms.Signature, Trim(password));
  }

  lemma NoKeyAfterKey(tail: seq<string>, passwordPrefix: string, sig: string, w: string)
    requires |tail| == 4 && tail[1] == passwordPrefix + w && tail[2] == "" && tail[3] == sig
    requires 'é' !in passwordPrefix && 'É' !in passwordPrefix && 'é' !in w && 'É' !in w
    requires forall k :: 0 <= k < |sig| ==> !IsSeparator(sig[k])
    ensures forall j :: 0 < j < |tail| ==> KeyMatch(tail[j]).None?
  {
    var line := passwordPrefix + w;
    assert forall k :: 0 <= k < |line| ==> line[k] in passwordPrefix || line[k] in w;
    NoAccentNoKey(line, 0);
    NoSeparatorNoMatch(KeyPattern, sig, 0);
    forall j | 0 < j < |tail| ensures KeyMatch(tail[j]).None? {
      assert j == 1 || j == 2 || j == 3;
    }
  }

  /** The password pattern finds the password in the second credential line. */
  lemma CredentialPasswordFound(code: string, password: string)
    requires Trim(password) != "" && SingleLine(password)
    ensures PasswordMatch(EventTransforms.InvitationCredentials(code, password)[1]) == Some(Trim(password))
  {
    var passwordLine := EventTransforms.InvitationCredentials(code, password)[1];
    assert passwordLine == EventTransforms.PasswordPrefix + Trim(password);
    PasswordLineMatches(password);
  }

  /** The two lines after it do not match the password pattern. */
  lemma CredentialPasswordOnlySecond(code: string, password: string)
    ensures var tail := EventTransforms.InvitationCredentials(code, password);
      forall j :: 1 < j < |tail| ==> PasswordMatch(tail[j]).None?
  {
    SignatureShape();
    NoPasswordAfterPassword(EventTransforms.InvitationCredentials(code, password), EventTransforms.Signature);
  }

  lemma NoPasswordAfterPassword(tail: seq<string>, sig: string)
    requires |tail| == 4 && tail[2] == "" && tail[3] == sig
    requires forall k :: 0 <= k < |sig| ==> !IsSeparator(sig[k])
    ensures forall j :: 1 < j < |tail| ==> PasswordMatch(tail[j]).None?
  {
    NoSeparatorNoMatch(PasswordPattern, sig, 0);
    forall j | 1 < j < |tail| ensures PasswordMatch(tail[j]).None? {
      assert j == 2 || j == 3;
    }
  }

  /** Pasting a text that ends with lines of which the first is the last
      accepted by `matches` finds the value captured there. */
  lemma PastedCapture(matches: string -> Option<string>, front: string, tail: seq<string>, i: nat)
    requires tail != []
    requires forall k :: 0 <= k < |tail| ==> SingleLine(tail[k]) && Trim(tail[k]) == tail[k]
    requires i < |tail| && matches(tail[i]).Some?
    requires forall j :: i < j < |tail| ==> matches(tail[j]).None?
    ensures LastCapture(matches, PastedLines(front + "\n" + Join(tail, "\n"))) == Trim(matches(tail[i]).value)
  {
    var lines := PastedLines(front + "\n" + Join(tail, "\n"));
    PastedTail(front, tail);
    LastCaptureOfTail(matches, lines, tail, i);
  }

  /** Pasting a text that ends with the credential lines finds the trimmed key. */
  lemma PastedKey(front: string, code: string, password: string)
    requires SingleLine(code) && SingleLine(password)
    requires Trim(code) != "" && Trim(password) != ""
    requires 'é' !in password && 'É' !in password
    ensures LastCapture(KeyMatch, PastedLines(front + "\n" + Join(EventTransforms.InvitationCredentials(code, password), "\n")))
            == Trim(code)
  {
    InvitationTailShape(code, password);
    CredentialKeyFound(code, password);
    CredentialKeyOnlyFirst(code, password);
    PastedCapture(KeyMatch, front, EventTransforms.InvitationCredentials(code, password), 0);
    TrimIdempotent(code);
  }

  /** Pasting a text that ends with the credential lines finds the trimmed password. */
  lemma PastedPassword(front: string, code: string, password: string)
    requires SingleLine(code) && SingleLine(password)
    requires Trim(code) != "" && Trim(password) != ""
    ensures LastCapture(PasswordMatch, PastedLines(front + "\n" + Join(EventTransforms.InvitationCredentials(code, password), "\n")))
            == Trim(password)
  {
    InvitationTailShape(code, password);
    CredentialPasswordFound(code, password);
    CredentialPasswordOnlySecond(code, password);
    PastedCapture(PasswordMatch, front, EventTransforms.InvitationCredentials(code, password), 1);
    TrimIdempotent(password);
  }

  /** Pasting an invitation fills the dialog with the event's trimmed share key
      and password and clears the error, whatever the title says, provided the
      key and password are non-blank single lines and the password has no `é`
      (an `é` could let a later line look like a key line). */
  lemma PasteRoundTrip(e: Event, d: JoinDialog)
    requires SingleLine(e.shareCode) && SingleLine(e.sharePassword)
    requires Trim(e.shareCode) != "" && Trim(e.sharePassword) != ""
    requires 'é' !in e.sharePassword && 'É' !in e.sharePassword
    ensures PasteOutcome(EventTransforms.InvitationText(e), d)
            == d.(code := Trim(e.shareCode), password := Trim(e.sharePassword), error := "")
  {
    var front := Join(EventTransforms.InvitationIntro(e.title), "\n");
    InvitationTextParts(e);
    PastedKey(front, e.shareCode, e.sharePassword);
    PastedPassword(front, e.shareCode, e.sharePassword);
  }

  // ----- Creating an event (handleCreate, :27-44) -----

  /** `handleCreate`'s event: the form's draft with a fresh id, the generated share
      key and password, the guest chat switched on and no organizers. */
  function NewEvent(draft: EventForm.EventDraft, id: string, shareCode: string, sharePassword: string): Event {
    Event(id, shareCode, sharePassword, draft.title, draft.description, draft.startDate, draft.endDate,
          draft.isPeriod, draft.isDateTBD, draft.location, draft.image, draft.creatorId, [],
          draft.category, draft.generalGuestsCount, draft.budget, draft.subEvents, draft.guests,
          true, draft.date)
  }

  /** In a new event the creator holds every right and nobody else holds any. */
  lemma NewEventRights(draft: EventForm.EventDraft, id: string, shareCode: string, sharePassword: string,
                       userId: string, p: Permission)
    ensures var e := NewEvent(draft, id, shareCode, sharePassword);
      Permissions.HasPermission(e, userId, p) <==> userId == draft.creatorId
  {
    var e := NewEvent(draft, id, shareCode, sharePassword);
    Permissions.HasPermissionIff(e, userId, p);
  }

  /** The invitation of a new event pastes back into the join dialog: a generated
      password is eight letters and digits, so only the share key needs to be a
      non-blank single line. */
  lemma NewEventInvitationPastes(draft: EventForm.EventDraft, id: string, shareCode: string,
                                 draws: seq<real>, d: JoinDialog)
    requires |draws| >= SharePassword.Length && forall i :: 0 <= i < |draws| ==> SharePassword.IsDraw(draws[i])
    requires SingleLine(shareCode) && Trim(shareCode) != ""
    ensures var pw := SharePassword.GenerateSharePassword(draws);
      PasteOutcome(EventTransforms.InvitationText(NewEvent(draft, id, shareCode, pw)), d)
        == d.(code := Trim(shareCode), password := pw, error := "")
  {
    var pw := SharePassword.GenerateSharePassword(draws);
    GeneratedPasswordPastes(pw);
    PasteRoundTrip(NewEvent(draft, id, shareCode, pw), d);
  }

  /** Alphabet text of eight characters is a non-blank single line, its own trim,
      and has no `é`. */
  lemma GeneratedPasswordPastes(pw: string)
    requires |pw| == SharePassword.Length && forall k :: 0 <= k < |pw| ==> pw[k] in SharePassword.Alphabet
    ensures SingleLine(pw) && Trim(pw) == pw && Trim(pw) != ""
    ensures 'é' !in pw && 'É' !in pw
  {
    SharePassword.AlphabetShape();
    forall k | 0 <= k < |pw| ensures 'A' <= pw[k] <= 'Z' || '2' <= pw[k] <= '9' {
      assert pw[k] in SharePassword.Alphabet;
    }
    TrimOfTrimmed(pw);
  }

  // ----- The dashboard buckets (:87-91) -----

  /** `new Date(e.startDate!)` as milliseconds: `parse` reads a date string and
      answers `None` for an invalid date; a missing start is an invalid date. */
  function StartTime(e: Event, parse: string -> Option<int>): Option<int> {
    if e.startDate.None? then None else parse(e.startDate.value)
  }

  predicate IsUpcoming(e: Event, now: int, parse: string -> Option<int>) {
    !e.isDateTBD && StartTime(e, parse).Some? && StartTime(e, parse).value >= now
  }

  predicate IsPast(e: Event, now: int, parse: string -> Option<int>) {
    !e.isDateTBD && StartTime(e, parse).Some? && StartTime(e, parse).value < now
  }

  /** A dated event whose start is missing or not a date. */
  predicate IsUndated(e: Event, parse: string -> Option<int>) {
    !e.isDateTBD && StartTime(e, parse).None?
  }

  /** `events.filter(keep)`. */
  function Keep(events: seq<Event>, keep: Event -> bool): (r: seq<Event>)
    ensures |r| <= |events|
    ensures forall e :: e in r <==> e in events && keep(e)
  {
    if events == [] then []
    else
      var rest := Keep(events[1..], keep);
      assert forall e :: e in events <==> e == events[0] || e in events[1..];
      if keep(events[0]) then [events[0]] + rest else rest
  }

  function TbdBucket(events: seq<Event>): seq<Event> {
    Keep(events, (e: Event) => e.isDateTBD)
  }

  function UpcomingBucket(events: seq<Event>, now: int, parse: string -> Option<int>): seq<Event> {
    Keep(events, (e: Event) => IsUpcoming(e, now, parse))
  }

  function PastBucket(events: seq<Event>, now: int, parse: string -> Option<int>): seq<Event> {
    Keep(events, (e: Event) => IsPast(e, now, parse))
  }

  /** No event is shown in two buckets, and an event is shown in one exactly
      when it is to be confirmed or its start reads as a date. */
  lemma BucketsPartition(events: seq<Event>, now: int, parse: string -> Option<int>)
    ensures var tbd, upcoming, past := TbdBucket(events), UpcomingBucket(events, now, parse), PastBucket(events, now, parse);
      && (forall e :: !(e in tbd && e in upcoming) && !(e in tbd && e in past) && !(e in upcoming && e in past))
      && (forall e :: e in events ==> (e in tbd || e in upcoming || e in past <==> !IsUndated(e, parse)))
  {
  }

  /** Every event is counted once: in one of the three buckets or among the
      undated ones, which no bucket shows. */
  lemma {:induction false} BucketCount(events: seq<Event>, now: int, parse: string -> Option<int>)
    ensures |TbdBucket(events)| + |UpcomingBucket(events, now, parse)| + |PastBucket(events, now, parse)|
            + |Keep(events, (e: Event) => IsUndated(e, parse))| == |events|
  {
    if events != [] {
      BucketCount(events[1..], now, parse);
    }
  }

  // ----- The list after an update (onUpdate, :207-209) -----

  /** `prev.map(e => e.id === updated.id ? updated : e)` when an event comes
      back, the list unchanged otherwise. */
  function ReplaceById(events: seq<Event>, updated: Option<Event>): (r: seq<Event>)
    ensures |r| == |events|
  {
    if updated.None? then events
    else seq(|events|, i requires 0 <= i < |events| =>
               if events[i].id == updated.value.id then updated.value else events[i])
  }

  /** The update takes the place of every entry with its id, leaves the other
      entries where they were, and applying it twice is applying it once. */
  lemma ReplaceByIdSpec(events: seq<Event>, updated: Event)
    ensures var r := ReplaceById(events, Some(updated));
      && (forall i :: 0 <= i < |events| && events[i].id != updated.id ==> r[i] == events[i])
      && (forall i :: 0 <= i < |events| && events[i].id == updated.id ==> r[i] == updated)
      && (forall i :: 0 <= i < |r| ==> r[i].id == events[i].id)
      && ReplaceById(r, Some(updated)) == r
  {
  }

  /** An update whose id is not in the list leaves it as it is. */
  lemma ReplaceAbsentId(events: seq<Event>, updated: Event)
    requires forall i :: 0 <= i < |events| ==> events[i].id != updated.id
    ensures ReplaceById(events, Some(updated)) == events
  {
  }
}
