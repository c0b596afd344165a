# MyEvent — a verified model of the event core

MyEvent is an event-planning application with a French user interface. An
**event** has a share code and a share password. Its owner (the creator) lets
co-organizers join by code and password. A join request creates a *pending*
organizer entry, which the owner approves with a set of permissions and,
optionally, a scope of sequences (sub-events). The event holds sequences with
key moments, guests with a headcount and per-sequence attendance, and a chat
per sequence (plus a global one).

The model follows the program's own modules. There is one Dafny module per
source file, plus `Text` (the JavaScript string built-ins the code relies on)
and `Types` (the records of `core/types`).

- **Types** — the records of `core/types/event.ts` and the closed set of six
  permission tags.
- **Permissions**, **OrganizerWorkflow** — the permission gates of the event
  view. They cover the owner, the first *confirmed* organizer entry, the `all`
  wildcard and sequence scoping. They also cover the two checkbox toggles and
  the approve, reject and edit-rights transforms.
- **EventStore** — the event store protocol:
  - the row mappers and the per-user listing;
  - share-code normalisation, lookup and generation;
  - `updateAtomic` as fetch, transform, whole-record write on a map-valued
    store (class `Store`);
  - the organizer join request and the join-by-credentials validation.
- **EventTransforms** — the document transforms the event view hands to
  `updateAtomic`: password, sequences, key moments, guests and settings. It
  also holds the invitation text.
- **Timeline**, **MessagesApi**, **Chat** — the chat engine:
  - the chat message mappers and the store query;
  - the poll/reconnect merge (merge by id, then sort by time);
  - the realtime append, the optimistic send and its rollback;
  - the derivation of typing names.

  `Chat.ChatSession` is a class whose fields the handlers update.
- **GuestsTable**, **ExportGuests** — headcount and attendance clamps, guest
  patches, the sequence filter, and the export table with its file name.
- **ContactImport** — CSV and vCard contact parsing, written as loops that
  push into an output list. Each loop is proved equal to a specification
  function.
- **Home** — the dashboard:
  - the join dialog and the upper-casing code input;
  - the invitation paste, written as a loop over lines and proved to recover
    the code and password from the invitation text;
  - event creation, the dashboard buckets, and list replacement.
- **EventForm**, **RegisterForm**, **LoginForm**, **ErrorRecords** — the
  validators. They fill an error record rule by rule.
- **ProfilesApi**, **AuthApi**, **UseEvents** — the profile mappers and
  fallbacks, profile building and the result branching of sign-up and
  sign-in, and the change-feed relevance test of the events hook.

Things outside the program become parameters:
- Randomness is a sequence of draws in [0, 1) or a UUID string.
- Date parsing is an oracle `string -> Option<int>`.
- The clock is a time-stamp parameter.
- The two server RPCs and the stores' answers (rows, errors, echoed rows) are
  input values or functions.

## Model

| member | source | states |
|---|---|---|
| Types.NonEmptyOrNone | api/events.ts:57-79 | `s \|\| undefined`: absent exactly for the empty string, otherwise the string itself |
| Types.PermissionTag | core/types/event.ts:36-42 | every permission has a non-empty stored tag |
| Types.ParsePermission | core/types/event.ts:36-42 | a stored tag reads back only as the permission that writes it |
| Types.PermissionTagsClosed | core/types/event.ts:36-42 | exactly six permissions, pairwise distinct tags, each reads back as itself |
| Text.Trim | utils/contactImport.ts:17-19 | trimmed text: no white space at either end, no longer than the input |
| Text.TrimIsInfix | utils/contactImport.ts:17-19 | the trim is a slice of the input with only white space cut off before and after it |
| Text.TrimLower | api/events.ts:100 | trimming and lower-casing commute |
| Text.TrimEmptyIff | utils/contactImport.ts:22-24 | a text trims to empty exactly when it is all white space |
| Text.TrimIdempotent | api/events.ts:110-112 | trimming twice is trimming once |
| Text.ToUpper | api/events.ts:100 | upper-casing keeps the length and maps each character |
| Text.ToLower | utils/contactImport.ts:59 | lower-casing keeps the length and maps each character |
| Text.RemoveSpaces | utils/contactImport.ts:59 | the result has no white space, is no longer than the input, and is the input itself when it has none |
| Text.RemoveSpacesAppend | utils/contactImport.ts:59 | removing white space from a concatenation removes it from each part, so the other characters stay in their order |
| Text.RemoveSpacesOne | utils/contactImport.ts:59 | a single character is dropped exactly when it is white space |
| Text.Split | utils/contactImport.ts:75 | at least one piece, and no piece holds a separator |
| Text.SplitPieceCount | utils/contactImport.ts:75 | one more piece than there are separators |
| Text.JoinSplit | components/Home.tsx:69 | joining the split pieces with the separator gives the text back |
| Text.SplitJoin | api/auth.ts:7-11 | pieces without the separator are split back out of their join |
| Text.NonEmpty | utils/contactImport.ts:100 | `.filter(Boolean)` keeps the non-empty pieces in order |
| Text.NonEmptyMembers | utils/contactImport.ts:100 | the filter keeps exactly the non-empty pieces |
| Text.Words | utils/contactImport.ts:39-40 | the words of a text: non-empty and free of white space |
| Text.WordsHaveNoSpace | utils/contactImport.ts:39-40 | every word is a white-space-free piece of the split |
| Text.WordsOfNoSpace | utils/contactImport.ts:39-40 | a text with no white space is a single piece of the split, and a single word, or none when empty |
| Text.OrElse | components/EventDetail.tsx:368-369 | `s \|\| fallback`: the fallback exactly when the text is empty |
| Text.NatToString | utils/contactImport.ts:91 | decimal rendering: non-empty, digits only |
| Permissions.Selection | components/EventDetail.tsx:133-136 | `!selectedSubId`: an empty id counts as no selection |
| Permissions.CurrentOrganizer | components/EventDetail.tsx:121-122 | the first confirmed entry of the user, or none when the user has no confirmed entry |
| Permissions.FirstConfirmedUnique | components/EventDetail.tsx:121-122 | the first confirmed entry is unique |
| Permissions.HasPermissionIff | components/EventDetail.tsx:118-129 | a permission holds iff the user is the owner, or their first confirmed entry lists it or `all` |
| Permissions.PendingGrantsNothing | components/EventDetail.tsx:121-124 | a pending entry grants nothing to a non-owner |
| Permissions.CanManageSubEventIff | components/EventDetail.tsx:130-132 | sequence scope: unscoped users (no confirmed entry, no or empty scope) manage every sequence, scoped ones only the listed ones |
| Permissions.ScopedOrganizerGates | components/EventDetail.tsx:133-136 | the "here" gates equal the base capability and, with a selected sequence, its membership in the scope |
| Permissions.ChatGates | components/EventDetail.tsx:135-136 | no sequence chat without a selection, then sending equals `canChat`; the owner can always send |
| Permissions.Without | components/EventDetail.tsx:453-457 | filtering out a value keeps exactly the other members and changes nothing when it is absent |
| Permissions.WithoutKeepsNoDuplicates | components/EventDetail.tsx:453-457 | filtering keeps a duplicate-free list duplicate-free |
| Permissions.TogglePermissionSpec | components/EventDetail.tsx:448-459 | `all` toggles between `[]` and `[all]`; another tag while `all` is held only drops `all`; otherwise the clicked tag's membership flips and nothing else changes |
| Permissions.TogglePermissionPreserves | components/EventDetail.tsx:448-459 | no duplicates, and `all` only alone, are both preserved |
| Permissions.ToggleSubEventSpec | components/EventDetail.tsx:461-464 | the clicked sequence's membership flips, others stay, no duplicates |
| OrganizerWorkflow.RejectOrganizer | components/EventDetail.tsx:414 | rejection removes every entry of the user, whatever its status, and keeps the others |
| OrganizerWorkflow.RejectKeepsOrder | components/EventDetail.tsx:414 | rejection works piece by piece, so survivors keep their order |
| OrganizerWorkflow.ApproveOrganizer | components/EventDetail.tsx:415-422 | each entry of the user becomes confirmed with `permissions ?? old` and the given scope; others unchanged, same length |
| OrganizerWorkflow.HandleApprove | components/EventDetail.tsx:412-423 | only the organizer list changes; reject filters, approve keeps the length |
| OrganizerWorkflow.ApproveButtonArgs | components/EventDetail.tsx:1285 | the button passes the ticked tags or `[access_organizer_chat]`, and no scope for an empty selection |
| OrganizerWorkflow.ApprovedEntryIsCurrent | components/EventDetail.tsx:415-422 | after approval the user's first entry is their first confirmed one, with the granted tags and scope |
| OrganizerWorkflow.ApprovalGrants | components/EventDetail.tsx:1285 | after a button approval the user holds exactly the granted tags, or everything through `all` |
| OrganizerWorkflow.ApprovalConfirmsAll | components/EventDetail.tsx:1285 | every entry of the approved user is confirmed and no empty scope is stored |
| OrganizerWorkflow.EditRights | components/EventDetail.tsx:434-443 | the edited user's entries get the new tags and scope (none when empty); status and other entries unchanged |
| OrganizerWorkflow.ConfirmedIsFinal | components/EventDetail.tsx:412-443 | approval only confirms; editing rights never changes a status |
| OrganizerWorkflow.ScopedApprovalScenario | components/EventDetail.tsx:130-134 | an organizer approved for `manage_guests` scoped to `sub-1` manages guests there and not in `sub-2` |
| SharePassword.PickBand | utils/sharePassword.ts:10 | `CHARS[floor(r * 32)]`: a draw in the k-th of 32 equal bands of [0, 1) picks the k-th character |
| SharePassword.PickInAlphabet | utils/sharePassword.ts:10 | each drawn character is in the alphabet |
| SharePassword.FloorIndexInBounds | utils/sharePassword.ts:10 | `floor(r * n)` lies in [0, n) for a draw in [0, 1) |
| SharePassword.PickAll | utils/sharePassword.ts:6-10 | one character per draw |
| SharePassword.PickAllAt | utils/sharePassword.ts:10 | character i comes from draw i |
| SharePassword.GenerateSharePassword | utils/sharePassword.ts:3-10 | exactly 8 characters, all from the alphabet, never 0, O, 1 or I |
| SharePassword.AlphabetRises | utils/sharePassword.ts:5 | the alphabet is strictly rising (letters, then digits) |
| SharePassword.AlphabetShape | utils/sharePassword.ts:5 | every character is a capital letter or a digit from 2 to 9 |
| SharePassword.AlphabetIsUnambiguous | utils/sharePassword.ts:3-5 | 32 pairwise distinct characters, none of 0, O, 1, I |
| EventStore.FromDb | api/events.ts:32-55 | mapped events are in normal form (date = start date, description and password present); ids, code, creator, lists copied |
| EventStore.ToDb | api/events.ts:57-79 | the row stores the password, start date and description |
| EventStore.FromToDb | api/events.ts:32-79 | `fromDb(toDb(e)) == e` for an event in normal form |
| EventStore.DateNotStored | api/events.ts:57-79 | `date` is not stored: it is recomputed from the start date |
| EventStore.ToFromDb | api/events.ts:32-79 | `toDb(fromDb(row)) == row` when password and description are present |
| EventStore.ListedRows | api/events.ts:85-89 | keeps exactly the rows of the creator or of a confirmed organizer |
| EventStore.GetByUserId | api/events.ts:82-91 | `[]` on a store error; otherwise exactly the listed rows, mapped |
| EventStore.ListedIffRole | api/events.ts:85-89 | a row is listed iff the user owns the mapped event or has a confirmed entry in it |
| EventStore.NormalizeCode | api/events.ts:100 | the normalised code is the trimmed code with each character upper-cased: same length as the trim, no white space at the ends, no lower-case letter |
| EventStore.NormalizeIgnoresCase | api/events.ts:100 | a code typed in lower case normalises to the same code |
| EventStore.FindsIgnoresCase | api/events.ts:99-105 | the lookup finds an event for a lower-cased code iff it finds one for the code |
| EventStore.LowerCaseCodeFinds | api/events.ts:99-105 | a stored share code held by one row is found when typed in lower case |
| EventStore.NormalizeIdempotent | api/events.ts:100 | normalising twice is normalising once |
| EventStore.FindsNormalCode | api/events.ts:99-105 | a normal, non-empty code is found iff exactly one row holds it |
| EventStore.DrawCode | api/events.ts:119-120 | a drawn code has 10 characters |
| EventStore.DrawCodeAt | api/events.ts:120 | character i of attempt k comes from draw 10k+i |
| EventStore.DrawnCodeInAlphabet | api/events.ts:117-120 | drawn codes use only the 32-character alphabet |
| EventStore.LookupOfDrawnCode | api/events.ts:121 | looking up a drawn code succeeds iff exactly one row holds it |
| EventStore.FallbackCode | api/events.ts:124 | the fallback is the first 10 characters of the UUID without dashes (all of them when fewer), each upper-cased |
| EventStore.FallbackMayUseZero | api/events.ts:124 | the fallback can hold `0`, which the alphabet excludes |
| EventStore.DrawAttempt | api/events.ts:119-120 | the character loop builds the drawn code |
| EventStore.Store.constructor | api/events.ts:81 | a store over the given rows |
| EventStore.Store.FindByShareCodeOnly | api/events.ts:99-105 | found iff the normalised code is non-empty and held by exactly one row, and it is that row, mapped |
| EventStore.Store.FindByShareCodeAndPassword | api/events.ts:107-114 | a result has the code and a password equal after trimming; none when lookup fails or passwords differ |
| EventStore.Store.GenerateUniqueShareCode | api/events.ts:116-125 | the first of 50 drawn codes that lookup does not find, else the fallback when all 50 were taken; under unique share codes a drawn result is held by no row |
| EventStore.FreeUnderUniqueCodes | api/events.ts:121-122 | when no two rows share a code, a code the lookup misses is held by no row |
| EventStore.DuplicateCodeLooksFree | api/events.ts:102-103 | a code held by two rows is not found, so it counts as free |
| EventStore.Store.TryAttempt | api/events.ts:119-122 | one attempt: the drawn code and whether it is taken |
| EventStore.Store.UpdateAtomic | api/events.ts:127-135 | missing record: not-found error, store unchanged; write failure: its message, store unchanged; otherwise the transformed record is written whole and returned, mapped |
| EventStore.Store.RequestOrganizerJoin | api/events.ts:148-162 | the store receives the join request's record, with the same error paths as updateAtomic |
| EventStore.InterleavedUpdates | api/events.ts:127-135 | an update that fetches after another's write applies on top of it: the row holds the composition |
| EventTransforms.LostGuestUpdate | api/events.ts:127-135 | two guests added from the same fetch: the second write lacks the first guest; added one after the other, the row holds both in order |
| EventStore.JoinRequest | api/events.ts:149-160 | appends a pending `[access_organizer_chat]` entry iff the user is neither creator nor listed; nothing else changes |
| EventStore.EntryCount | api/events.ts:150 | zero entries iff no entry of the user |
| EventStore.JoinRequestProperties | api/events.ts:148-162 | idempotent, the creator is never added, a new requester has one entry and no permission |
| EventStore.RequestJoinByCodeAndPassword | api/events.ts:164-191 | blank trimmed code or password: missing-credentials error, no lookup; lookup error or no id: generic error; add error: its own message; otherwise success |
| EventStore.BlankCredentialsSkipLookup | api/events.ts:171 | with a blank field the outcome does not depend on the server |
| EventTransforms.IdentityKeepsRights | components/EventDetail.tsx:118-136 | transforms that keep owner and organizers keep every gate |
| EventTransforms.PasswordToSave | components/EventDetail.tsx:92-95 | saved only when not already saving and not blank; the trimmed, non-empty text |
| EventTransforms.SetPassword | components/EventDetail.tsx:97 | only the password changes |
| EventTransforms.SavedPasswordMatches | components/EventDetail.tsx:97 | after saving, a join attempt matches iff it equals the entered password after trimming |
| EventTransforms.NewSequence | components/EventDetail.tsx:264-272 | a sequence only with `canManageProgram` and a title; fresh id, no key moments |
| EventTransforms.AddSequence | components/EventDetail.tsx:273-276 | appends the sequence; nothing else changes |
| EventTransforms.RemoveSequence | components/EventDetail.tsx:532 | keeps exactly the sequences with another id |
| EventTransforms.DeleteSequence | components/EventDetail.tsx:530-533 | removes the sequence; guests and other fields unchanged |
| EventTransforms.RemoveAbsentSequence | components/EventDetail.tsx:532 | removing an absent id changes nothing |
| EventTransforms.AddThenDeleteSequence | components/EventDetail.tsx:264-280 | deleting a just-added sequence restores the event |
| EventTransforms.DeleteLeavesGuestLinks | components/EventDetail.tsx:530-533 | guests keep links to the deleted sequence |
| EventTransforms.NewKeyMoment | components/EventDetail.tsx:466-469 | a key moment only with the "here" gate, a selection and a label |
| EventTransforms.AddKeyMoment | components/EventDetail.tsx:470-473 | appends to the selected sequence's key moments only; nothing else changes |
| EventTransforms.AddKeyMomentKeepsIds | components/EventDetail.tsx:472 | sequence ids and titles unchanged |
| EventTransforms.NewGuest | components/EventDetail.tsx:390-402 | a guest only with the "here" gate, a selection and a non-blank first name; trimmed fields, confirmed, linked to the selection |
| EventTransforms.ImportedGuest | components/EventDetail.tsx:366-375 | pending, linked to the selection, trimmed names with `Prénom`/`Nom` fallbacks, phone absent when blank |
| EventTransforms.ImportedGuests | components/EventDetail.tsx:366-375 | one guest per contact, in order |
| EventTransforms.ImportGuests | components/EventDetail.tsx:364-376 | guests only with the "here" gate and a selection |
| EventTransforms.ImportedGuestsAreNamed | components/EventDetail.tsx:368-369 | imported guests always have non-empty names |
| EventTransforms.AddGuests | components/EventDetail.tsx:377-380 | appends the guests; nothing else changes |
| EventTransforms.ApplySequenceSettings | components/EventDetail.tsx:509-514 | title `trim \|\| old`, date and location absent when empty; id and key moments kept |
| EventTransforms.SaveSequenceSettings | components/EventDetail.tsx:505-517 | only the selected sequence changes |
| EventTransforms.SaveSequenceSettingsIdempotent | components/EventDetail.tsx:505-517 | saving the same settings twice is saving once |
| EventTransforms.SubmittedStart | components/EventDetail.tsx:631 | a start only when not to-be-decided and non-empty |
| EventTransforms.SaveEventSettings | components/EventDetail.tsx:629-641 | title and location `trim \|\| old`, start and date kept without a new start, image absent when blank; lists, password unchanged |
| EventTransforms.TransformsKeepNormalForm | components/EventDetail.tsx:97 | every transform keeps an event in the store's normal form |
| EventTransforms.UndecidedKeepsStart | components/EventDetail.tsx:631-636 | marking the date undecided keeps the old start |
| ContactImport.IsContactComplete | utils/contactImport.ts:22-24 | complete iff trimmed first and last names and one of trimmed email or phone are non-empty |
| ContactImport.TrimAll | utils/contactImport.ts:75 | each cell trimmed |
| ContactImport.LeadingDigits | utils/contactImport.ts:87 | the longest leading run of digits |
| ContactImport.ParseInt | utils/contactImport.ts:87 | a number only when the text has a digit |
| ContactImport.ParseIntOfDigits | utils/contactImport.ts:87 | a digit string parses to its value |
| ContactImport.ParseIntOfNatToString | utils/contactImport.ts:87 | a rendered number parses back to itself |
| ContactImport.CsvLines | utils/contactImport.ts:56 | the lines kept are non-empty |
| ContactImport.HeaderCell | utils/contactImport.ts:59 | header cells hold no white space |
| ContactImport.HeaderCells | utils/contactImport.ts:59 | each header cell normalised |
| ContactImport.FindColumn | utils/contactImport.ts:62 | the first cell that contains the name or is contained in it |
| ContactImport.FirstMatchingName | utils/contactImport.ts:61-64 | the first candidate name that some cell matches |
| ContactImport.ColumnIndex | utils/contactImport.ts:60-66 | -1 iff no cell matches any name; otherwise the first matching cell of the first matching name |
| ContactImport.NomMatchesPrenom | utils/contactImport.ts:67-68 | with header `prenom;nom` both the first and the last name come from column 0 |
| ContactImport.EmptyCellMatchesEverything | utils/contactImport.ts:62 | an empty first header cell wins every lookup |
| ContactImport.NumberedCompanions | utils/contactImport.ts:89-97 | n - 1 companions `Invité 2`..`Invité n` |
| ContactImport.CompanionNames | utils/contactImport.ts:100 | the names are non-empty |
| ContactImport.MainContact | utils/contactImport.ts:77-83 | the main contact's phone has no white space |
| ContactImport.ParseRow | utils/contactImport.ts:75-106 | a data row yields nothing when blank, else its main contact followed by its companions |
| ContactImport.CompanionsOf | utils/contactImport.ts:85-106 | the companions a cell adds |
| ContactImport.PushNumbered | utils/contactImport.ts:89-97 | for a count n > 0 the loop pushes `Invité 2`..`Invité n`, in order, sharing the main contact's details |
| ContactImport.PushNamed | utils/contactImport.ts:100-106 | the loop pushes exactly one companion per name, in the order of the names, sharing the main contact's email, phone and address |
| ContactImport.ParseCsv | utils/contactImport.ts:55-109 | `parseCsv` equals the specification; `[]` with fewer than two lines |
| ContactImport.ParseDataLines | utils/contactImport.ts:74-107 | the loop over lines 1 .. n - 1 concatenates, in line order, what each data line contributes (the header line 0 adds nothing) |
| ContactImport.AppendRow | utils/contactImport.ts:74-107 | one iteration appends one row's contacts |
| ContactImport.RowContactsShape | utils/contactImport.ts:82-106 | a row gives nothing iff its four fields are empty, otherwise the main contact then its companions |
| ContactImport.CountedCompanions | utils/contactImport.ts:88-97 | a count n adds n - 1 contacts named `Invité k`, sharing email, phone, address, last name or `—` |
| ContactImport.ZeroIsAName | utils/contactImport.ts:100-106 | `0` is not a count, so it adds one contact named `0` |
| ContactImport.NextCardStart | utils/contactImport.ts:29 | the next `BEGIN:VCARD` marker |
| ContactImport.Cards | utils/contactImport.ts:29 | the cards are non-empty |
| ContactImport.MarkersDoNotOverlap | utils/contactImport.ts:29 | two markers never overlap |
| ContactImport.FirstCardHoldsMarker | utils/contactImport.ts:29 | a card that starts with a marker holds all of it |
| ContactImport.CardsPartition | utils/contactImport.ts:29 | the cards concatenate to the text; every card after the first starts with a marker |
| ContactImport.AfterLastColon | utils/contactImport.ts:32 | the value after the last colon of a property line |
| ContactImport.FirstValue | utils/contactImport.ts:31-36 | a value iff some line holds the property |
| ContactImport.Property | utils/contactImport.ts:31-36 | property values are trimmed |
| ContactImport.CardAddress | utils/contactImport.ts:43-44 | no address exactly when there is no ADR value |
| ContactImport.CardContact | utils/contactImport.ts:37-45 | the card's phone has no white space |
| ContactImport.KeepFilled | utils/contactImport.ts:47 | keeps exactly the contacts with some field |
| ContactImport.CardContacts | utils/contactImport.ts:30-46 | exactly one candidate contact per card, in card order |
| ContactImport.ParseVcf | utils/contactImport.ts:27-48 | `parseVcf` equals the specification; at most one contact per card, each with a field and a space-free phone |
| ContactImport.ParseCards | utils/contactImport.ts:29-45 | the loop pushes one candidate contact per card, in card order |
| ContactImport.AppendCard | utils/contactImport.ts:29-45 | one pass of the loop appends exactly the candidate of the next card |
| ContactImport.NameFromFullName | utils/contactImport.ts:39-40 | without N, the first FN word is the first name and the rest the last name |
| ContactImport.NoAdrNoAddress | utils/contactImport.ts:43-44 | no ADR line, no address |
| GuestsTable.Clamp | components/GuestsTable.tsx:17 | `max(lo, min(hi, v))` lies in [lo, hi] and is v inside |
| GuestsTable.GuestCount | components/GuestsTable.tsx:16-18 | the headcount lies in [1, 99], is 1 when absent, the stored value inside the range |
| GuestsTable.Attendance | components/GuestsTable.tsx:20-24 | 0 without an entry, never above the headcount, the stored value inside the range |
| GuestsTable.UpdateGuest | components/GuestsTable.tsx:51-60 | patches only the guest with that id; order and other fields unchanged |
| GuestsTable.UpdateGuestKeepsIds | components/GuestsTable.tsx:55 | ids unchanged; an absent id changes nothing |
| GuestsTable.SetGuestCountSpec | components/GuestsTable.tsx:62-68 | the guest's headcount reads as the clamped value; attendance and others unchanged |
| GuestsTable.LoweredCountCapsAttendance | components/GuestsTable.tsx:20-24 | attendance never exceeds a lowered headcount |
| GuestsTable.AttendanceWith | components/GuestsTable.tsx:70-76 | the clamped value under that sequence, every other key unchanged |
| GuestsTable.SetAttendanceReadsBack | components/GuestsTable.tsx:70-79 | reads back the clamped value; other sequences and the headcount unchanged |
| GuestsTable.ShownGuests | components/GuestsTable.tsx:44-46 | without a filter, all guests |
| GuestsTable.LinkedTo | components/GuestsTable.tsx:45 | exactly the guests linked to the sequence |
| GuestsTable.ShownGuestsFiltered | components/GuestsTable.tsx:44-46 | with a filter, the linked guests in their original order |
| ExportGuests.SubEventHeader | utils/exportGuests.ts:28 | `<title> (présents)`, `Séquence (présents)` when untitled |
| ExportGuests.SubEventHeaders | utils/exportGuests.ts:28 | one header per sequence |
| ExportGuests.Headers | utils/exportGuests.ts:21-30 | six fixed columns, one per sequence, then `Total présents` |
| ExportGuests.AttendanceCells | utils/exportGuests.ts:43 | one attendance cell per sequence |
| ExportGuests.TotalPresent | utils/exportGuests.ts:32-35 | the total lies in [0, headcount × sequences] |
| ExportGuests.BuildExportRows | utils/exportGuests.ts:18-48 | the headers, and one row per guest in order |
| ExportGuests.TotalIsSumOfCells | utils/exportGuests.ts:32-35 | the total is the sum of the attendance cells |
| ExportGuests.RowShape | utils/exportGuests.ts:31-46 | a guest's row is as wide as the header line; headcount in [1, 99]; attendance cells in [0, headcount]; last cell is their sum |
| ExportGuests.ExportRowShape | utils/exportGuests.ts:31-46 | every row as long as the headers; headcount in [1, 99]; cells in [0, headcount]; last cell is their sum |
| ExportGuests.ExportIgnoresLinks | utils/exportGuests.ts:33-34 | attendance counts every sequence, linked or not |
| ExportGuests.ExportFileName | utils/exportGuests.ts:56 | a given name as is; otherwise `invites-` + first 30 title characters, each kept or dashed, + extension |
| ExportGuests.DefaultNameCharacters | utils/exportGuests.ts:56 | in the default name, each of the first 30 title characters is kept when an ASCII letter or digit and is a dash otherwise, followed by the extension |
| Timeline.Insert | components/EventDetail.tsx:154-156 | insertion is a permutation that adds the message |
| Timeline.SortByTime | components/EventDetail.tsx:154-156 | sorting is a permutation |
| Timeline.InsertSorted | components/EventDetail.tsx:154-156 | insertion keeps a sorted list sorted |
| Timeline.SortSorted | components/EventDetail.tsx:154-156 | sorting sorts by time |
| Timeline.SortOfSorted | components/EventDetail.tsx:154-156 | a sorted list is left as it is |
| Timeline.SortKeepsIds | components/EventDetail.tsx:154-156 | sorting keeps ids and members |
| Timeline.InsertKeepsUniqueIds | components/EventDetail.tsx:154-156 | inserting a new id keeps ids unique |
| Timeline.SortKeepsUniqueIds | components/EventDetail.tsx:154-156 | sorting keeps ids unique |
| MessagesApi.ToDb | api/messages.ts:30-41 | `fromDb(toDb(m)) == m` |
| MessagesApi.ToFromDb | api/messages.ts:17-41 | `toDb(fromDb(r)) == r`, timestamp is `created_at` |
| MessagesApi.ChannelRows | api/messages.ts:48-49 | exactly the rows of the event and channel |
| MessagesApi.MapFromDb | api/messages.ts:52 | each row mapped, in order |
| MessagesApi.Get | api/messages.ts:44-53 | `[]` on a store error; one message per matching row |
| MessagesApi.GetSpec | api/messages.ts:44-53 | sorted by creation time; exactly the messages of the event and channel |
| MessagesApi.Save | api/messages.ts:55-59 | an insert error is reported with its message; otherwise the row is appended |
| MessagesApi.SavedMessageIsFetched | api/messages.ts:44-59 | a saved message is returned by the next `get` of its channel |
| Chat.ChannelOf | components/EventDetail.tsx:141 | the selected sequence, or `global` |
| Chat.IndexOfId | components/EventDetail.tsx:152-153 | the first index holding the id, or -1 when none does |
| Chat.Upsert | components/EventDetail.tsx:153 | replaces the entry with that id in place, or appends |
| Chat.UpsertSpec | components/EventDetail.tsx:152-153 | ids gain the new id; other messages kept; ids stay unique; the new version wins |
| Chat.UpsertAllIds | components/EventDetail.tsx:152-153 | a batch upsert keeps ids unique and adds the batch's ids |
| Chat.UpsertAllOrigin | components/EventDetail.tsx:152-153 | every result comes from the batch, or from before with an id not in the batch |
| Chat.UpsertAllKeepsOld | components/EventDetail.tsx:152-153 | earlier messages whose id is not in the batch survive |
| Chat.UpsertAllHasBatch | components/EventDetail.tsx:152-153 | every message of the batch is present |
| Chat.UpsertAllFresh | components/EventDetail.tsx:152 | building the map from a unique list gives that list |
| Chat.UpsertPresent | components/EventDetail.tsx:153 | re-upserting a present message changes nothing |
| Chat.UpsertAllPresent | components/EventDetail.tsx:153 | re-upserting present messages changes nothing |
| Chat.MergeSpec | components/EventDetail.tsx:148-158 | one entry per id of prev ∪ fetched, the fetched version winning, sorted by time |
| Chat.MergeIdempotent | components/EventDetail.tsx:226-232 | merging the same batch twice changes nothing |
| Chat.AppendIfAbsent | components/EventDetail.tsx:183 | a present id leaves the list; otherwise appends at the end, unsorted |
| Chat.AppendKeepsUniqueIds | components/EventDetail.tsx:183 | appending keeps ids unique |
| Chat.RemoveId | components/EventDetail.tsx:570 | keeps exactly the messages with another id |
| Chat.RemoveAbsentId | components/EventDetail.tsx:570 | removing an absent id changes nothing |
| Chat.RollbackUndoesSend | components/EventDetail.tsx:565-571 | rolling back a send restores the list |
| Chat.Flatten | components/EventDetail.tsx:189 | the presences of every group |
| Chat.TypingCandidates | components/EventDetail.tsx:191-193 | names of others who are typing |
| Chat.Dedupe | components/EventDetail.tsx:190 | the same names, each once |
| Chat.TypingNames | components/EventDetail.tsx:188-195 | exactly the names of other typing users, each once |
| Chat.OwnNameHidden | components/EventDetail.tsx:192 | every shown name belongs to someone else and is non-empty |
| Chat.ChatSession.Channel | components/EventDetail.tsx:141 | the session's channel is non-empty |
| Chat.ChatSession.constructor | components/EventDetail.tsx:26-31 | empty messages, draft and typing names; not connected |
| Chat.ChatSession.Load | components/EventDetail.tsx:143-146 | a mounted session takes the fetched list |
| Chat.ChatSession.Poll | components/EventDetail.tsx:224-233 | the list becomes the merge |
| Chat.ChatSession.Resync | components/EventDetail.tsx:148-158 | a mounted session merges after an error or a time-out |
| Chat.ChatSession.Realtime | components/EventDetail.tsx:179-184 | ignores rows of another channel; otherwise appends if absent |
| Chat.ChatSession.PresenceSync | components/EventDetail.tsx:186-196 | a mounted session's typing names become the derived names |
| Chat.ChatSession.Subscribed | components/EventDetail.tsx:201-204 | connected, publishing not-typing |
| Chat.ChatSession.Type | components/EventDetail.tsx:479-490 | the draft is the text; with `canChat` and a channel, typing is published and the timer armed |
| Chat.ChatSession.TypingTimeout | components/EventDetail.tsx:486-489 | the timer clears the typing flag |
| Chat.ChatSession.Outgoing | components/EventDetail.tsx:554-563 | the message's channel, sender, text, and owner role iff the owner |
| Chat.ChatSession.Send | components/EventDetail.tsx:543-565 | nothing without `canSendChat` or with a blank draft; otherwise draft cleared, message appended, typing stopped |
| Chat.ChatSession.Compose | components/EventDetail.tsx:545-563 | a message iff the send is allowed and the trimmed draft non-empty |
| Chat.ChatSession.Append | components/EventDetail.tsx:548-565 | draft cleared, message appended if absent, typing stopped |
| Chat.ChatSession.SaveFailed | components/EventDetail.tsx:568-571 | removes exactly that id and restores the text to the draft |
| Chat.ChatSession.Unmount | components/EventDetail.tsx:207-216 | unmounted, disconnected, timer cleared, no typing names |
| Chat.ChatSession.SwitchChannel | components/EventDetail.tsx:139-217 | a new channel starts disconnected with no typing names; messages and draft kept |
| Chat.SendThenFail | components/EventDetail.tsx:543-572 | a failed send restores the list, and the trimmed text to the draft |
| ErrorRecords.WithRule | components/LoginForm.tsx:20-22 | a failing rule sets its key to its message; a passing one leaves the record |
| ErrorRecords.CheckRule | components/LoginForm.tsx:20-22 | one rule statement equals `WithRule` |
| EventForm.DigitOf | components/EventForm.tsx:68 | the value of a decimal digit |
| EventForm.LeadingDigits | components/EventForm.tsx:68 | the longest leading run of digits of the radix |
| EventForm.ParseIntOfNatToString | components/EventForm.tsx:68 | `parseInt` of a rendered number gives it back, and so does `\|\| 0` |
| EventForm.FormErrors | components/EventForm.tsx:43-58 | a key iff its rule fails (blank title; missing start unless TBD; end not after start for a period; missing location unless undecided), with its message |
| EventForm.FormValidIff | components/EventForm.tsx:59-60 | valid iff no rule fails |
| EventForm.InitialFormRefused | components/EventForm.tsx:43-58 | the initial form fails on title, start date and location |
| EventForm.SubmittedDraft | components/EventForm.tsx:66-78 | start and date absent iff TBD; end only for a non-TBD period; no guests; the user as creator |
| EventForm.SubmittedDraftIsValid | components/EventForm.tsx:63-78 | a submitted draft has a title, a start, a location or undecided, and an end after the start |
| EventForm.BlankSubEvent | components/EventForm.tsx:32-39 | a blank sequence with the fresh id and no key moments |
| EventForm.CollectErrors | components/EventForm.tsx:43-58 | the rule-by-rule record equals `FormErrors` |
| EventForm.EventFormState.constructor | components/EventForm.tsx:17-29 | the initial form and no errors |
| EventForm.EventFormState.AddSubEvent | components/EventForm.tsx:31-41 | appends one blank sequence, existing ones kept |
| EventForm.EventFormState.Validate | components/EventForm.tsx:43-61 | stores the record; valid iff it is empty |
| EventForm.EventFormState.HandleSubmit | components/EventForm.tsx:63-80 | submits iff valid, with the mapped draft |
| RegisterForm.RegisterErrorsKeys | components/RegisterForm.tsx:29-40 | a key iff its rule fails |
| RegisterForm.RegisterErrorsMessages | components/RegisterForm.tsx:31-39 | each present key holds its rule's message |
| RegisterForm.RegisterValidIff | components/RegisterForm.tsx:41-42 | valid iff every field is acceptable |
| RegisterForm.EmailSamples | components/RegisterForm.tsx:33 | `jean@mail.fr` passes; no dot or a space fails |
| RegisterForm.PhoneSampleAccepted | components/RegisterForm.tsx:34 | a `+`, digits, spaces, at least 10 characters pass |
| RegisterForm.PhoneSamplesRefused | components/RegisterForm.tsx:34 | too short, or a `+` not in front, fails |
| RegisterForm.CollectErrors | components/RegisterForm.tsx:29-40 | the rule-by-rule record equals `RegisterErrors` |
| RegisterForm.Submitted | components/RegisterForm.tsx:58-63 | the fields without the confirmation |
| RegisterForm.SubmittedIsAcceptable | components/RegisterForm.tsx:58-63 | what is submitted has names, a valid email, a 10-character phone, an address and an 8-character password |
| RegisterForm.RegisterFormState.constructor | components/RegisterForm.tsx:16-27 | the initial form and no errors |
| RegisterForm.RegisterFormState.Validate | components/RegisterForm.tsx:29-43 | stores the record; valid iff it is empty |
| RegisterForm.RegisterFormState.HandleAddressSelect | components/RegisterForm.tsx:45-56 | overwrites street, city, zip and removes exactly those three errors |
| RegisterForm.RegisterFormState.HandleSubmit | components/RegisterForm.tsx:58-64 | submits iff acceptable, without the confirmation |
| RegisterForm.AddressSelectThenValidate | components/RegisterForm.tsx:45-56 | after selecting a full address, validation gives the old record minus those three keys |
| LoginForm.LoginErrors | components/LoginForm.tsx:18-22 | `Email requis` iff the email is empty; `Mot de passe requis` iff the password is |
| LoginForm.LoginValidIff | components/LoginForm.tsx:24-28 | no errors iff both fields are non-empty |
| LoginForm.ShownError | components/LoginForm.tsx:47-50 | an error shows iff present and non-empty |
| LoginForm.ClearedSpec | components/LoginForm.tsx:47-62 | editing hides only that field's error, keeps the keys, and is idempotent |
| LoginForm.IsAnyLoading | components/LoginForm.tsx:31 | busy iff a password or provider sign-in is under way |
| LoginForm.LoginFormState.constructor | components/LoginForm.tsx:13-16 | empty fields, no errors |
| LoginForm.LoginFormState.HandleSubmit | components/LoginForm.tsx:18-29 | sends the untrimmed fields iff both are non-empty; otherwise stores the record |
| LoginForm.LoginFormState.EditEmail | components/LoginForm.tsx:47-50 | sets the email and clears its error |
| LoginForm.LoginFormState.EditPassword | components/LoginForm.tsx:59-62 | sets the password and clears its error |
| LoginForm.EditAfterRefusal | components/LoginForm.tsx:18-62 | after an empty submit, typing an email hides only the email error |
| ProfilesApi.ToDb | api/profiles.ts:34-47 | `fromDb(toDb(u)) == u` |
| ProfilesApi.ToFromDb | api/profiles.ts:19-47 | `toDb(fromDb(r)) == r` |
| ProfilesApi.RowsWithId | api/profiles.ts:51 | exactly the rows with that id |
| ProfilesApi.GetById | api/profiles.ts:50-54 | none on an error, on no row or on several rows; exactly one row with the id gives that row mapped |
| ProfilesApi.GetByIdFindsStored | api/profiles.ts:50-54 | with unique ids, every stored profile is found by its id |
| ProfilesApi.Upsert | api/profiles.ts:56-64 | the input on a failed write, else the returned row mapped |
| ProfilesApi.UpsertEcho | api/profiles.ts:56-64 | an echoed write returns the profile |
| ProfilesApi.RowsWithUniqueId | api/profiles.ts:51 | with unique ids, an id has one row |
| ProfilesApi.UpsertThenGet | api/profiles.ts:50-64 | after an upsert on id, ids stay unique and `getById` returns the profile |
| AuthApi.NameParts | api/auth.ts:8 | the words are non-empty and contain no space |
| AuthApi.BuildProfile | api/auth.ts:6-24 | the id is copied, the email defaults to empty, the creation stamp is the clock |
| AuthApi.NamePartsOfJoin | api/auth.ts:8-11 | single-space words split back out of their join |
| AuthApi.BuiltNamesFromFullName | api/auth.ts:7-11 | without stored names: one word or `Utilisateur` for the first name, the other words for the last name, empty for a one-word name |
| AuthApi.TwoWordFullName | api/auth.ts:7-11 | a two-word full name splits into first and last name |
| AuthApi.SignUpMetadata | api/auth.ts:40-48 | the names and the trimmed full name stored at sign-up |
| AuthApi.RegisteredProfile | api/auth.ts:55-57 | the form's fields, the account id and the clock |
| AuthApi.Register | api/auth.ts:33-58 | error: its message; no id: incomplete; no session: success awaiting confirmation, no user; otherwise the profile |
| AuthApi.RebuiltAfterSignUp | api/auth.ts:6-48 | the profile rebuilt from sign-up metadata has the registered names, email and id |
| AuthApi.Login | api/auth.ts:60-71 | error: its message; no account id: invalid session; otherwise the stored profile when there is one |
| AuthApi.FirstLoginFallback | api/auth.ts:65-69 | without a stored profile, the built one; once written, the same one is read back |
| UseEvents.RowOf | hooks/useEvents.ts:39-40 | the new row, else the old one; none only when both are absent |
| UseEvents.FeedRow | hooks/useEvents.ts:37-46 | a stored row as the feed delivers it |
| UseEvents.RelevantIffEntry | hooks/useEvents.ts:41-45 | refetch iff the user is creator or has any organizer entry, pending included |
| UseEvents.ListedRowsAreRelevant | hooks/useEvents.ts:41-45 | every change to a listed event triggers a refetch |
| UseEvents.PendingEntryIsRelevant | hooks/useEvents.ts:41-45 | a pending entry alone triggers a refetch of an unlisted event |
| UseEvents.NonArrayOnlyCreator | hooks/useEvents.ts:43-44 | a non-array organizers value never matches |
| UseEvents.EventsHook.constructor | hooks/useEvents.ts:13-14 | no events, loading |
| UseEvents.EventsHook.FetchEvents | hooks/useEvents.ts:18-22 | the list becomes the user's events from the store; loading ends |
| UseEvents.EventsHook.OnChange | hooks/useEvents.ts:37-46 | refetches iff the change is relevant, otherwise nothing changes |
| UseEvents.EventsHook.OnStatus | hooks/useEvents.ts:48-52 | refetches on an error or a time-out only |
| Home.HandleJoin | components/Home.tsx:47-64 | blank code or password: fixed error, no request; failure: the result's error or the default; success: dialog closed and reset, refetch |
| Home.BlankJoinSkipsStore | components/Home.tsx:51-54 | a blank field sends nothing and does not depend on the server |
| Home.OpenDialogExplains | components/Home.tsx:47-64 | an open dialog after a join shows an error and keeps the typed fields |
| Home.OnCodeInput | components/Home.tsx:151 | the code is upper-cased on input |
| Home.CodeInputIdempotent | components/Home.tsx:151 | upper-casing twice is once |
| Home.SkipSpaces | components/Home.tsx:73 | `\s*` stops at the first non-space |
| Home.LineEnd | components/Home.tsx:73 | `.+` stops at the line end |
| Home.Capture | components/Home.tsx:73-76 | a capture is non-empty and single-line |
| Home.Search | components/Home.tsx:73-75 | a match is the first position where the pattern matches |
| Home.PastedLines | components/Home.tsx:69 | the trimmed lines of the text |
| Home.LastCaptureSpec | components/Home.tsx:72-77 | the last matching line wins, trimmed; no match gives empty |
| Home.ApplyPaste | components/Home.tsx:78-81 | nothing found keeps the dialog; otherwise found fields replace, missing ones keep their value, error cleared |
| Home.PasteInvitation | components/Home.tsx:66-85 | clipboard error: its message; otherwise the paste outcome |
| Home.ScanLines | components/Home.tsx:70-77 | after the loop, code and password are the trimmed captures of the last line matching each pattern, empty when none matches |
| Home.ScanLine | components/Home.tsx:72-77 | one line of the loop keeps the last captures |
| Home.NoSeparatorNoMatch | components/Home.tsx:73-75 | a line without `:` or `-` never matches |
| Home.KeyNeedsAccent | components/Home.tsx:73 | a key match needs `é` (or `É`) |
| Home.KeyLineMatches | components/Home.tsx:73-74 | the invitation's key line gives the trimmed code |
| Home.PasswordLineMatches | components/Home.tsx:75-76 | the invitation's password line gives the trimmed password |
| Home.PasteRoundTrip | components/Home.tsx:66-81 | pasting an event's invitation recovers its trimmed code and password, whatever the title |
| Home.NewEventRights | components/Home.tsx:27-38 | a new event grants every permission to its creator only |
| Home.NewEventInvitationPastes | components/Home.tsx:27-38 | the invitation of a new event pastes back its code and generated password |
| Home.Keep | components/Home.tsx:89-91 | keeps exactly the events that pass |
| Home.BucketsPartition | components/Home.tsx:88-91 | buckets are pairwise disjoint; an event is in one iff TBD or its start reads as a date |
| Home.BucketCount | components/Home.tsx:88-91 | the three buckets and the undated events add up to the list |
| Home.ReplaceById | components/Home.tsx:207-209 | the length is kept |
| Home.ReplaceByIdSpec | components/Home.tsx:207-209 | the same-id entry replaced, others and ids unchanged, idempotent |
| Home.ReplaceAbsentId | components/Home.tsx:207-209 | an unknown id changes nothing |

## Left out

- Network I/O, realtime channels, presence transport and timers. The store is a
  map or a row sequence; pushes, ticks and replies are method calls or inputs.
- `Math.random` and `crypto.randomUUID` are inputs (draw sequences, UUID strings).
- Date parsing and `new Date()` are an oracle and a parameter.
- Floating-point budgets (`parseFloat`) are an opaque input.
- Image upload, FileReader, the clipboard and `navigator.share`.
- Case mapping covers ASCII letters only (plus `é`/`É` in the paste pattern).
  JavaScript maps all of Unicode.
- JavaScript string lengths count UTF-16 code units; the model counts Unicode
  scalar values. They differ only for characters outside the Basic Multilingual
  Plane (password length, file-name slice).
- `Number(n)` on a non-numeric attendance value (NaN) is not modelled:
  attendance values are integers.
- The order of rows returned by the store is the order of the input sequence.
- The two server RPCs `get_event_id_for_join` and `add_pending_organizer` are
  opaque functions.
- `getCurrentUser`, `loginWithProvider`, `logout` and `initSocialProviders` in
  `api/auth.ts` are left out: they are session I/O and redirects.
- `register` writes the profile but ignores the write's result; the model does
  not consult it.
- RegisterForm's `isAnyLoading` is the same expression as LoginForm's
  (`LoginForm.IsAnyLoading`).
- Form field setters and JSX rendering are left out.
- The contact sources are not part of this model:
  - `pickContactsFromDevice` and `parseContactFile`;
  - `utils/contactImportService.ts` and `utils/nativeContacts.ts`;
  - `deduplicateContacts`, which the shown source does not define.
- `App.tsx`, `api/index.ts`, `services/notificationService.ts` and
  `capacitor.config.ts` are plumbing and are left out.
- Chat.TypingNames: states membership and no duplicates, not the
  first-occurrence order of `new Set`.
- Chat.MergeSpec: does not state the order among messages with equal
  timestamps (JavaScript's stable sort keeps map order).
- EventStore.Store.GenerateUniqueShareCode: promises a code held by no row only
  when no two rows share a code. The `.single()` lookup finds nothing for a code
  held by two rows, so such a code counts as free and may be returned.
- Home.PasteRoundTrip: requires a password without `é`/`É`. Otherwise a
  password line can also match the key pattern, and the paste takes the
  password's line as the key.
