# MedID pages: a Dafny model

MedID is a Next.js front end for NFC medical-ID bracelets. Its pages hold mock data, and `setTimeout` stands in for every server call. This project models the parts of those pages that make decisions:

- the owner's **audit-log filter**: free-text search, an action-type drop-down and a status drop-down;
- the **sign-up form**: per-field validation into an error map, the change handler and the submit guard;
- the **forgot-password form**: the blank check, then the e-mail pattern `/\S+@\S+\.\S+/`, and the error, loading and success flags;
- the **admin user table**: the name/e-mail search, the row toggle, "select all" and the header checkbox;
- the **medical-profile editor**: add, remove and per-field edits on the allergy, medication and emergency-contact lists, the trimmed condition list, and the page's `cn` helper;
- the **bracelet page**: link and unlink, the link dialog, its ID input and its error line.

Modules:

- `Text`: the ECMAScript whitespace set, `trim`, ASCII `toLowerCase`, `includes` and `length` in UTF-16 code units.
- `Seqs`: `Array.prototype.filter` and the order it keeps.
- `EmailFormat`:
  - the e-mail pattern, read as a predicate over indices (`Matches`);
  - a one-pass scanner (`IsEmailLike`);
  - a proof that the two agree on every string.
- `AuditLogs`: the audit-log filter.
- `Signup`: the sign-up form.
- `ForgotPassword`: the forgot-password form.
- `Admin`: the admin user table.
- `Profile`: the medical-profile editor.
- `Bracelet`: the bracelet page.

Pure filters are functions. Each page's React state is a class whose fields are the `useState` variables. Each handler is a method that states the page's complete new state.

Two behaviours of the pages are worth stating up front:

- **Bracelet linking.** The bracelet page accepts any non-blank ID, whatever its format, and only flips `isLinked`.
- **Audit-log search.** The audit-log page searches the text of `action`, `accessor` and `location` and keeps the list's own order.

## Model

| member | source | states |
|---|---|---|
| Text.Trim | app/auth/signup/page.tsx:39-41 | `trim` returns the slice of the input between its leading whitespace (`LeadingSpaces`) and its trailing whitespace (`TrimEndIndex`); both cut parts are all whitespace. The result is empty exactly when the input is all whitespace (the `!x.trim()` test). Otherwise it begins and ends with a non-whitespace character. |
| Text.Lower | app/dashboard/audit-logs/page.tsx:93-95 | `toLowerCase` keeps the length. Each ASCII capital becomes its lower-case letter (32 code points on), and every other character is kept, so no ASCII capital remains. |
| Text.LowerIdempotent | app/dashboard/audit-logs/page.tsx:93-95 | Lowering already-lowered text changes nothing. |
| Text.Utf16Length | app/auth/signup/page.tsx:48 | `s.length` counts UTF-16 code units: between one and two per character, and zero exactly for the empty string. |
| Text.Utf16LengthAppend | app/auth/signup/page.tsx:48 | The code-unit length of a concatenation is the sum of the lengths. |
| Text.Utf16LengthOfBmp | app/auth/signup/page.tsx:48 | Text inside the Basic Multilingual Plane has one code unit per character. |
| Text.Utf16LengthOfAstral | app/auth/signup/page.tsx:48 | Text outside the Basic Multilingual Plane has two code units (a surrogate pair) per character. |
| Seqs.Filter | app/dashboard/audit-logs/page.tsx:92 | `filter` returns a subsequence of its input (order kept, never longer) holding exactly the elements that satisfy the predicate, each with as many copies as the input has. |
| EmailFormat.ScanCorrect | app/auth/forgot-password/page.tsx:16-18 | From any scanner state, the scan reaches the match state exactly when the rest of the text completes the pattern: either a fresh match, or the partial match already in progress. |
| EmailFormat.IsEmailLikeCorrect | app/auth/forgot-password/page.tsx:16-18 | `validateEmail(s)` holds iff some substring of `s` is non-whitespace⁺ '@' non-whitespace⁺ '.' non-whitespace⁺. Both directions are proved. |
| EmailFormat.BlankIsNotEmailLike | app/auth/forgot-password/page.tsx:23-31 | A blank string never passes the e-mail pattern, so the blank check only decides which message is shown. |
| AuditLogs.FilteredLogs | app/dashboard/audit-logs/page.tsx:92-105 | `filteredLogs` is a subsequence of the logs (order kept). A log survives iff the search, the type and the status tests all hold, and then with all its copies. |
| AuditLogs.NoFilterKeepsAll | app/dashboard/audit-logs/page.tsx:93-102 | An empty search with both drop-downs on "all" shows every log. |
| AuditLogs.UnsearchedFieldsIrrelevant | app/dashboard/audit-logs/page.tsx:93-95 | The IP address, the device, the id and the timestamp never decide whether a log is shown. |
| AuditLogs.SearchIgnoresCase | app/dashboard/audit-logs/page.tsx:93-95 | Two search terms that lower-case to the same text give the same result. |
| AuditLogs.LongerSearchNarrows | app/dashboard/audit-logs/page.tsx:93-95 | Extending the search term gives a subsequence of the previous result. |
| AuditLogs.TypeCategories | app/dashboard/audit-logs/page.tsx:97-100 | "access", "update" and "system" each keep exactly the logs whose action contains, case-sensitively, "Accessed"; "Updated"; or "Linked" or "Login". |
| AuditLogs.UnknownTypeSelectsNothing | app/dashboard/audit-logs/page.tsx:97-100 | A type outside {all, access, update, system} shows no log. |
| AuditLogs.TypeNarrowsAll | app/dashboard/audit-logs/page.tsx:97-104 | For a fixed search and status, any type's result is a subsequence of the result for "all". |
| AuditLogs.StatusIsExact | app/dashboard/audit-logs/page.tsx:102 | A status other than "all" shows only logs with exactly that status. |
| Signup.Apply | app/auth/signup/page.tsx:26-29 | The change event writes its target field (`checked` for the checkbox, `value` otherwise). Every other field keeps its value. |
| Signup.CollectErrors | app/auth/signup/page.tsx:36-56 | The error map has a key per field exactly as the rules say, with the rule's message: a blank name; a blank e-mail ("required") or else one failing the pattern ("invalid"); an empty ("required") or shorter-than-8 ("at least 8") password, counted in UTF-16 code units and untrimmed; a confirmation differing from the password; unaccepted terms. |
| Signup.NoErrorsIffAcceptable | app/auth/signup/page.tsx:58-59 | A map that reports a form is empty exactly when the form is acceptable. |
| Signup.PasswordIsNotTrimmed | app/auth/signup/page.tsx:39-50 | Any all-whitespace password of eight or more characters passes the password check, because the password is not trimmed; the same text as a first name is reported blank. |
| Signup.AstralPasswordIsLongEnough | app/auth/signup/page.tsx:46-50 | Four characters outside the Basic Multilingual Plane are eight UTF-16 code units, so such a password passes the length check. |
| Signup.SignupPage.constructor | app/auth/signup/page.tsx:13-22 | The form starts empty, with no errors and not loading. |
| Signup.SignupPage.HandleChange | app/auth/signup/page.tsx:24-34 | The form becomes `Apply(old form, event)`. Only the target field's message is blanked, and only if it was non-empty; the key stays, holding "". |
| Signup.SignupPage.ValidateForm | app/auth/signup/page.tsx:36-60 | The error map is replaced by one that reports the current form, with the password length in UTF-16 code units. The result is true iff that map has no keys. |
| Signup.SignupPage.HandleSubmit | app/auth/signup/page.tsx:62-67 | Submission starts loading iff the form is acceptable (the password at least 8 UTF-16 code units long among the rest); otherwise `loading` is unchanged. |
| Signup.SignupPage.CompleteSubmit | app/auth/signup/page.tsx:69-72 | The timer callback stops loading. |
| ForgotPassword.SubmitError | app/auth/forgot-password/page.tsx:20-31 | The blank check comes first and gives "Email is required". A non-blank address failing the pattern gives "Please enter a valid email address". The message is empty iff the address has the e-mail shape. |
| ForgotPassword.TrimKeepsEmailShape | app/auth/forgot-password/page.tsx:23-28 | Applying the pattern to the untrimmed text, as the page does, gives the same verdict as applying it to the trimmed text. |
| ForgotPassword.ForgotPasswordPage.constructor | app/auth/forgot-password/page.tsx:11-14 | The page starts with empty text, no error, not loading, not succeeded. |
| ForgotPassword.ForgotPasswordPage.HandleSubmit | app/auth/forgot-password/page.tsx:20-34 | The error line becomes `SubmitError(email)`. Loading starts iff the address has the e-mail shape; a rejected address leaves `loading` unchanged. |
| ForgotPassword.ForgotPasswordPage.CompleteReset | app/auth/forgot-password/page.tsx:37-40 | The timer callback stops loading and sets success. |
| ForgotPassword.ForgotPasswordPage.ChangeEmail | app/auth/forgot-password/page.tsx:134-137 | Typing stores the text and clears the error. |
| ForgotPassword.ForgotPasswordPage.TryAnotherEmail | app/auth/forgot-password/page.tsx:86 | "Try another email" clears success and leaves the address unchanged. |
| Admin.FilteredUsers | app/admin/page.tsx:100-103 | `filteredUsers` is a subsequence of the users, never longer than the list ("Showing X of Y"). A user is kept iff the lower-cased name or e-mail contains the lower-cased term, and then with all its copies. |
| Admin.EmptySearchKeepsAll | app/admin/page.tsx:100-103 | An empty search term keeps every user. |
| Admin.Ids | app/admin/page.tsx:117 | `map(u => u.id)` returns the ids in table order. |
| Admin.Toggled | app/admin/page.tsx:105-111 | Toggling flips the id's membership: a present id is removed with all its copies, as a subsequence; an absent id is appended once at the end. Every other id keeps its number of copies. |
| Admin.ToggleTwiceRestores | app/admin/page.tsx:105-111 | Toggling an unselected id twice restores the selection exactly. |
| Admin.ToggleTwiceMovesToEnd | app/admin/page.tsx:105-111 | Toggling a selected id twice moves it, de-duplicated, to the end. |
| Admin.TogglePreservesNoDuplicates | app/admin/page.tsx:105-111 | Toggling never creates a duplicate in a duplicate-free selection. |
| Admin.SelectAll | app/admin/page.tsx:113-119 | When the selection is as long as the visible list, it is cleared; otherwise it becomes the visible ids in order. |
| Admin.SelectAllFlipsHeader | app/admin/page.tsx:218 | With at least one visible row, "select all" flips the header checkbox. From unchecked, it selects every visible id. |
| Admin.SameSizeSelectionIsCleared | app/admin/page.tsx:114 | Only lengths are compared. Any selection as long as the visible list shows the header checked, even when some visible row is not ticked, and clicking it clears the selection, leaving that row unticked. |
| Admin.AdminPage.constructor | app/admin/page.tsx:37-38 | The page starts with an empty search and an empty selection. |
| Admin.AdminPage.SetSearchTerm | app/admin/page.tsx:188 | The search box stores the typed term. |
| Admin.AdminPage.ToggleUserSelection | app/admin/page.tsx:105-111 | The selection becomes `Toggled(old, id)`, so the row's checkbox flips. |
| Admin.AdminPage.SelectAllUsers | app/admin/page.tsx:113-119 | The selection becomes `SelectAll(old, visible rows)`. |
| Profile.RemoveById | app/dashboard/profile/page.tsx:110-112 | Remove-by-id drops every entry with the id and keeps the rest in order, each with all its copies. |
| Profile.RemoveAbsentIdKeepsAll | app/dashboard/profile/page.tsx:110-112 | Removing an id no entry has leaves the list unchanged. |
| Profile.RemoveAfterAddRestores | app/dashboard/profile/page.tsx:106-112 | Appending an entry under a fresh id and then removing that id restores the list. This covers allergies, medications and contacts. |
| Profile.WithAllergyField | app/dashboard/profile/page.tsx:268-271 | An allergy field edit sets that field. The id and the other fields are kept. |
| Profile.WithMedicationField | app/dashboard/profile/page.tsx:340-343 | A medication field edit sets that field. The id and the other fields are kept. |
| Profile.WithContactField | app/dashboard/profile/page.tsx:449-452 | A contact field edit sets that field. The id and the other fields are kept. |
| Profile.WithoutCondition | app/dashboard/profile/page.tsx:129-131 | `removeCondition` removes every copy of the text and keeps every other condition, with all its copies, in order. |
| Profile.RemoveConditionTakesAllCopies | app/dashboard/profile/page.tsx:122-131 | A condition added twice is removed by one removal. |
| Profile.SplitJoin | app/dashboard/profile/page.tsx:551 | `join(' ')` is undone by `split(' ')` when no piece holds a space. |
| Profile.Cn | app/dashboard/profile/page.tsx:550-552 | `cn` returns "" iff every class name is empty. |
| Profile.CnSplitsIntoTruthyNames | app/dashboard/profile/page.tsx:550-552 | For space-free names, not all empty, splitting `cn`'s result on spaces gives exactly the non-empty names in order. So `cn` drops empty names and separates the rest with single spaces. |
| Profile.ProfilePage.constructor | app/dashboard/profile/page.tsx:60-83 | The lists start with the page's mock entries and the condition input starts empty. |
| Profile.ProfilePage.AddAllergy | app/dashboard/profile/page.tsx:106-108 | Exactly one entry is appended: the given id, empty allergen and reaction, severity "mild". |
| Profile.ProfilePage.RemoveAllergy | app/dashboard/profile/page.tsx:110-112 | The list becomes `RemoveById(old, id)`. |
| Profile.ProfilePage.EditAllergy | app/dashboard/profile/page.tsx:268-297 | Only the named field of the entry at the index changes. The length and the other entries are unchanged. |
| Profile.ProfilePage.AddMedication | app/dashboard/profile/page.tsx:114-116 | Exactly one blank medication with the given id is appended. |
| Profile.ProfilePage.RemoveMedication | app/dashboard/profile/page.tsx:118-120 | The list becomes `RemoveById(old, id)`. |
| Profile.ProfilePage.EditMedication | app/dashboard/profile/page.tsx:340-365 | Only the named field of the entry at the index changes. The length and the other entries are unchanged. |
| Profile.ProfilePage.SetNewCondition | app/dashboard/profile/page.tsx:400 | The condition input stores the typed text. |
| Profile.ProfilePage.AddCondition | app/dashboard/profile/page.tsx:122-127 | Non-blank input is appended trimmed (non-empty, no whitespace at either end) and the input is cleared. Blank input changes nothing. |
| Profile.ProfilePage.RemoveCondition | app/dashboard/profile/page.tsx:129-131 | The list becomes `WithoutCondition(old, text)`. |
| Profile.ProfilePage.AddEmergencyContact | app/dashboard/profile/page.tsx:133-141 | Exactly one blank contact with the given id is appended. |
| Profile.ProfilePage.RemoveEmergencyContact | app/dashboard/profile/page.tsx:143-145 | The list becomes `RemoveById(old, id)`. |
| Profile.ProfilePage.EditEmergencyContact | app/dashboard/profile/page.tsx:449-489 | Only the named field of the entry at the index changes. The length and the other entries are unchanged. |
| Bracelet.BraceletPage.constructor | app/dashboard/bracelet/page.tsx:23-27 | The page starts linked, with the dialog closed, no ID, no error and not loading. |
| Bracelet.BraceletPage.OpenLinkModal | app/dashboard/bracelet/page.tsx:135-140 | "Link Bracelet" (and "Replace Bracelet", lines 162-171) opens the dialog and changes nothing else. |
| Bracelet.BraceletPage.ChangeBraceletId | app/dashboard/bracelet/page.tsx:286-289 | Typing stores the ID and clears the error. |
| Bracelet.BraceletPage.CloseLinkModal | app/dashboard/bracelet/page.tsx:262-266 | Closing the dialog (also "Cancel", lines 298-302) hides it and clears the ID and the error. The link state is untouched. |
| Bracelet.BraceletPage.HandleLinkBracelet | app/dashboard/bracelet/page.tsx:37-44 | A blank ID sets "Please enter a bracelet ID" and changes nothing else. Any non-blank ID is accepted without a format check; acceptance clears the error and starts loading. |
| Bracelet.BraceletPage.CompleteLink | app/dashboard/bracelet/page.tsx:47-52 | The timer callback stops loading, closes the dialog, clears the ID and leaves a bracelet linked, including on the replace path. |
| Bracelet.BraceletPage.HandleUnlinkBracelet | app/dashboard/bracelet/page.tsx:56-61 | A declined confirmation changes nothing. A confirmed one starts loading. |
| Bracelet.BraceletPage.CompleteUnlink | app/dashboard/bracelet/page.tsx:62-65 | The timer callback stops loading and unlinks. |

## Left out

- Timers: each `setTimeout` callback is a separate `Complete…` method that may be called at any time. Pending timers are not tracked, so interleavings such as closing the link dialog before the link completes are possible but not ordered.
- `alert`, `router.push` and the bracelet page's `handleTestBracelet` (an alert only) are presentation or navigation and are not modelled. The answer to `confirm` is a boolean parameter of `HandleUnlinkBracelet`.
- `Date.now().toString()` ids are a parameter of the three `Add…` methods. The freshness that `RemoveAfterAddRestores` requires is what the clock would provide.
- Profile.ProfilePage.EditAllergy: the page copies the array but mutates the shared entry object (`updated[index].allergen = …`), so the previous state's array sees the edit too. The model works on values and does not capture that aliasing. The same holds for EditMedication and EditEmergencyContact.
- Text.Lower: lowers only the ASCII letters A–Z. `toLowerCase` also lowers other scripts, which the model leaves unchanged.
- Text.IsBlank: stated as "every character is whitespace". `Text.Trim` proves this equals "`trim()` is empty".
- React details are not modelled: batching of state updates, stale closures (each handler sees the current state) and re-rendering.
- The profile page's `handleSave`, its `basicInfo` and `notes` setters and `activeTab`, and the tab styling built with `cn` (lines 168-173) are not modelled. They are single-field writes or presentation.
- The audit-log page's summary cards (lines 108-111) and the admin statistics are constants and are not modelled.
- `@/lib/utils` (`cn` as imported by the audit-log and admin pages) and `@/components/ui/Select`, `Badge` and `Modal` are not part of this model. The model therefore lets the ID input change while the dialog is hidden.
- The marketing, layout, settings, subscription and dashboard-overview pages and the 3D bracelet components are outside the modelled core.
