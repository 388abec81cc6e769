# Mock sign-in portal: session store, signup validation and slide viewer

A Dafny model of the logic inside a browser demo that offers a login page,
a signup page and a dashboard on which a PowerPoint file can be uploaded
and paged through. There is no server: the "backend" is the browser's
`localStorage`.

- `auth_context.dfy` (module `Auth`): the session store of `AuthProvider`.
  The login email regex `^[^\s@]+@[^\s@]+\.[^\s@]+$` is modelled as the
  language it denotes and proved equal to a regex-free description of
  its shape. The three ordered login guards, login, logout and the mount
  effect that restores a stored session are pure transition functions
  on a `SessionState`. The `AuthProvider` class updates its fields and the
  shared storage object, and its methods are proved against those
  functions.
- `signup.dfy` (module `Signup`): the `signupSchema` rules (trimmed name of
  2 to 50 code units; trimmed email accepted by zod's email check and at
  most 255 code units; password of 8 to 100 code units with an upper-case
  letter, a lower-case letter and a digit; confirmation equal to the
  password). The issues zod reports come in zod's order. The `forEach`
  loop folds them into one message per field, the last one winning. Then
  come the case-sensitive duplicate-email check and the append to the
  stored `users` array. The `SignupPage` class holds the form, the error
  map and the storage.
- `dashboard.dfy` (module `Dashboard`): the slide pager bounded by
  `TotalSlides = 10`, the upload gate that accepts exactly the two
  PowerPoint MIME types, and the logout button. `DashboardPage` is a
  class whose handlers are proved against a `Step` function.
- `storage.dfy` (module `Storage`): `localStorage` as a class holding a map
  from key to structured value. `auth` holds a session, `users` holds the
  user list, and any other key holds opaque text.
- `js_text.dfy` (module `JsText`): JavaScript's `\s` class, `String.trim`
  and `.length`, which counts UTF-16 code units.
- `wrappers.dfy` (module `Wrappers`): `Option` and `Result`.

Where the code behaves differently from what a reader might expect, the model follows the code:

- Login does not look up any user list. Every pair that passes the three
  guards signs in, and the session stored under `auth` is `{ user: { email } }`
  with no name. `Auth.AnyWellFormedPairPasses` shows a password nobody
  registered being accepted, and `Auth.AnyWellFormedPairPasses` states it for
  every well-formed pair.
- A stored session that is not valid JSON would make the restore effect
  throw. It would not be read as "signed out". The model assumes the
  stored values have the shape the application writes (`Storage.WellFormed`).
- Signup keeps one message per field, not every message.
- The maximum-length messages say "less than 50/255/100", but zod's
  `max` is inclusive: 50, 255 and 100 are accepted
  (`Signup.NameBoundIsInclusive`).

## Model

| member | source | states |
|---|---|---|
| `JsText.JsLength` | src/contexts/AuthContext.tsx:35 | `.length` counts UTF-16 code units: between the number of characters and twice that, and equal to it when every character is in the basic plane |
| `JsText.TrimStart` | src/pages/Signup.tsx:15 | the result is a suffix of the input, everything dropped is whitespace, and it does not start with whitespace |
| `JsText.TrimEnd` | src/pages/Signup.tsx:15 | the result is a prefix of the input, everything dropped is whitespace, and it does not end with whitespace |
| `JsText.Trim` | src/pages/Signup.tsx:15 | `trim()` returns an infix of the input outside which everything is whitespace, and it neither starts nor ends with whitespace |
| `JsText.TrimIdempotent` | src/pages/Signup.tsx:19 | trimming a trimmed string changes nothing |
| `Storage.StoredUsers` | src/pages/Signup.tsx:66 | an absent `users` key reads as the empty list; otherwise the stored list is returned |
| `Storage.LocalStorage.GetItem` | src/contexts/AuthContext.tsx:17 | a key reads as present exactly when it is in storage, with its stored value |
| `Storage.LocalStorage.SetItem` | src/contexts/AuthContext.tsx:41 | writes one key and leaves every other key as it was |
| `Storage.LocalStorage.RemoveItem` | src/contexts/AuthContext.tsx:49 | removes one key and leaves every other key as it was |
| `Auth.EmailPattern` | src/contexts/AuthContext.tsx:31 | the language of the regex: an `@` and a later `.` split the string into three non-empty runs without whitespace or `@`; so a match has at least 5 characters and neither starts nor ends with whitespace or `@` |
| `Auth.PatternGivesShape` | src/contexts/AuthContext.tsx:31 | every address the regex accepts has no whitespace and exactly one `@` with something before it, and the part after the `@` has a `.` that is neither its first nor its last character |
| `Auth.ShapeGivesPattern` | src/contexts/AuthContext.tsx:31 | every address of that shape is accepted by the regex |
| `Auth.EmailPatternIsShape` | src/contexts/AuthContext.tsx:31 | the regex accepts exactly the addresses of that shape (both directions) |
| `Auth.LoginGuard` | src/contexts/AuthContext.tsx:27-37 | the guards let a pair through exactly when the email has the regex's shape and the password is at least 6 code units; otherwise one of the three messages comes back |
| `Auth.LoginGuardOrder` | src/contexts/AuthContext.tsx:27-37 | an empty field reports "Email and password are required" whatever else is wrong; with both present, a malformed email reports "Invalid email format" even when the password is short; a well-formed email with a short password reports the length message |
| `Auth.PasswordLengthBoundary` | src/contexts/AuthContext.tsx:35-37 | with a well-formed email, the length guard passes exactly at 6 code units or more: 6 passes, 5 is rejected |
| `Auth.AnyWellFormedPairPasses` | src/contexts/AuthContext.tsx:25-46 | every pair whose email has the regex's shape and whose password has at least 6 code units signs in, whatever the session and storage hold: no user list is consulted |
| `Auth.UnregisteredExamplePasses` | src/contexts/AuthContext.tsx:39-45 | the example pair `ann@example.com` / `wrong123`, which nobody registered, passes the guards |
| `Auth.InitialSession` | src/contexts/AuthContext.tsx:13-14 | the provider starts signed out with no user |
| `Auth.RestoreStep` | src/contexts/AuthContext.tsx:16-23 | with `auth` stored, the state becomes signed in as the stored user; without it the state is left as it was; storage is only read; the session invariant is kept |
| `Auth.LoginStep` | src/contexts/AuthContext.tsx:25-46 | success exactly when the guards pass; on failure the guard's message is returned and state and storage are unchanged; on success the user is `{ email }` in memory and under `auth`, no other key changes, and the session invariant is kept |
| `Auth.LogoutStep` | src/contexts/AuthContext.tsx:48-52 | always signed out with no user and no `auth` key; every other key unchanged |
| `Auth.LogoutIdempotent` | src/contexts/AuthContext.tsx:48-52 | logging out twice equals logging out once |
| `Auth.LoginThenReload` | src/contexts/AuthContext.tsx:16-45 | after a successful login, a fresh provider that runs the restore effect is signed in as the same user |
| `Auth.LogoutThenReload` | src/contexts/AuthContext.tsx:16-52 | after logout, a fresh provider that runs the restore effect stays signed out |
| `Auth.AuthProvider.constructor` | src/contexts/AuthContext.tsx:12-14 | a new provider over a storage is signed out and keeps its invariant |
| `Auth.AuthProvider.Restore` | src/contexts/AuthContext.tsx:16-23 | the mount effect changes the provider exactly as `RestoreStep` says |
| `Auth.AuthProvider.Login` | src/contexts/AuthContext.tsx:25-46 | returns the response and leaves the provider and storage exactly as `LoginStep` says |
| `Auth.AuthProvider.Logout` | src/contexts/AuthContext.tsx:48-52 | leaves the provider and storage exactly as `LogoutStep` says |
| `Signup.SignupForm.With` | src/pages/Signup.tsx:49 | sets one field of the form and keeps the other three |
| `Signup.NameIssues` | src/pages/Signup.tsx:14-17 | every issue is about `name`, and there is none exactly when the trimmed name has 2 to 50 code units |
| `Signup.EmailIssues` | src/pages/Signup.tsx:18-21 | every issue is about `email`, and there is none exactly when the trimmed email passes zod's email check and has at most 255 code units |
| `Signup.PasswordIssues` | src/pages/Signup.tsx:22-27 | every issue is about `password`, and there is none exactly when the untrimmed password has 8 to 100 code units and contains A-Z, a-z and 0-9 |
| `Signup.ConfirmIssues` | src/pages/Signup.tsx:28-32 | the only possible issue is on `confirmPassword`, and it is raised exactly when the confirmation differs from the password |
| `Signup.SchemaIssues` | src/pages/Signup.tsx:13-32 | the issues of all four fields in schema order, then the refinement; the list is empty exactly when all four rules hold |
| `Signup.SchemaIssuesPerField` | src/pages/Signup.tsx:13-32 | a field has an issue exactly when its rule fails |
| `Signup.NameBoundIsInclusive` | src/pages/Signup.tsx:14-17 | a trimmed name of 50 code units gets no error; one of 51 gets the "less than 50" message |
| `Signup.ParseSignup` | src/pages/Signup.tsx:63 | parsing succeeds exactly when all four rules hold, returning the trimmed name and email and the raw passwords; otherwise the issues name exactly the failing fields |
| `Signup.FieldErrors` | src/pages/Signup.tsx:100-105 | the fold of the issues into a map from field to message, which has at most one entry per issue |
| `Signup.FieldErrorsLastWins` | src/pages/Signup.tsx:100-106 | the error map has an entry for a field exactly when some issue is about it, and the entry is the message of the last such issue |
| `Signup.FieldErrorsIgnoresOthers` | src/pages/Signup.tsx:101-105 | issues about other fields reported later leave a field's entry as it was |
| `Signup.CollectFieldErrors` | src/pages/Signup.tsx:100-105 | the `forEach` loop builds the error map of the issues |
| `Signup.MissingDigitReportedLast` | src/pages/Signup.tsx:22-27 | a password without a digit is reported with the "number" message whatever else is wrong with it, because that check is the last one |
| `Signup.ClearFieldError` | src/pages/Signup.tsx:51-53 | editing a field removes that field's error and keeps every other field's error as it was |
| `Signup.EmailTaken` | src/pages/Signup.tsx:67 | true exactly when some stored record has the same email, compared case-sensitively |
| `Signup.AppendUser` | src/pages/Signup.tsx:66-89 | refused exactly when the email is taken; otherwise the list grows by the new record at its end, earlier records are unchanged, and pairwise-distinct emails stay distinct |
| `Signup.SubmitValid` | src/pages/Signup.tsx:65-89 | after validation: a stored record with the same email leaves storage unchanged; otherwise `users` gains the new record at its end, no other key changes and distinct emails stay distinct; no field error is shown |
| `Signup.SubmitStep` | src/pages/Signup.tsx:56-117 | a submit fails validation exactly when some rule fails; otherwise it continues as `SubmitValid` on the trimmed data; the shape of storage is kept |
| `Signup.SubmitRejectsInvalid` | src/pages/Signup.tsx:97-106 | invalid input leaves storage unchanged, and the error map has an entry for exactly the failing fields |
| `Signup.SubmitRejectsDuplicate` | src/pages/Signup.tsx:65-77 | valid input whose trimmed email is already stored leaves storage unchanged and shows no field error |
| `Signup.SubmitAppendsUser` | src/pages/Signup.tsx:79-89 | valid input with a new email appends exactly one record built from the trimmed name and email, the raw password, the id and the timestamp; earlier records and other keys are unchanged |
| `Signup.SubmitKeepsEmailsDistinct` | src/pages/Signup.tsx:66-89 | if stored emails were pairwise distinct before a submit, they still are after it |
| `Signup.MismatchAlwaysReported` | src/pages/Signup.tsx:29-32 | a confirmation that differs from the password always fails with "Passwords don't match" on `confirmPassword`, whatever the other fields hold |
| `Signup.SignupThenLogin` | src/contexts/AuthContext.tsx:25-46 | an account that signup created passes the login guards with its stored email and password, given that zod's email check is at least as strict as the login regex |
| `Signup.SignupPage.constructor` | src/pages/Signup.tsx:37-43 | the page starts with four empty fields and no errors |
| `Signup.SignupPage.HandleChange` | src/pages/Signup.tsx:48-54 | stores the edited value and clears only that field's error |
| `Signup.SignupPage.HandleSubmit` | src/pages/Signup.tsx:56-117 | the outcome, the error map and the storage afterwards are exactly those of `SubmitStep`; the form is unchanged |
| `Dashboard.InitialViewer` | src/pages/Dashboard.tsx:14-16 | the viewer starts on slide 1 with no file |
| `Dashboard.ClassifyUpload` | src/pages/Dashboard.tsx:29-47 | an upload is accepted exactly when a file is selected and its type is one of the two PowerPoint types; no selection is its own case |
| `Dashboard.Step` | src/pages/Dashboard.tsx:28-61 | every handler keeps the slide in [1, 10] and the file and URL present together; an accepted upload sets the file and URL and returns to slide 1; a rejected or empty selection changes nothing; the pager never touches the file |
| `Dashboard.PagerMoves` | src/pages/Dashboard.tsx:51-61 | previous goes down by exactly one above slide 1 and does nothing at 1; next goes up by exactly one below slide 10 and does nothing at 10 |
| `Dashboard.NextThenPrevious` | src/pages/Dashboard.tsx:51-61 | below the last slide, next then previous comes back to the same state |
| `Dashboard.RunKeepsInvariant` | src/pages/Dashboard.tsx:16-61 | under any sequence of previous, next and uploads the slide stays in [1, 10] |
| `Dashboard.DashboardPage.constructor` | src/pages/Dashboard.tsx:14-17 | a new page shows slide 1 with no file |
| `Dashboard.DashboardPage.HandlePrevious` | src/pages/Dashboard.tsx:51-55 | changes the page exactly as `Step` does for previous |
| `Dashboard.DashboardPage.HandleNext` | src/pages/Dashboard.tsx:57-61 | changes the page exactly as `Step` does for next |
| `Dashboard.DashboardPage.HandleFileUpload` | src/pages/Dashboard.tsx:28-49 | changes the page exactly as `Step` does for the upload and reports which branch was taken |
| `Dashboard.DashboardPage.HandleLogout` | src/pages/Dashboard.tsx:19-21 | the session ends up as `logout` leaves it, and the viewer state is untouched |

## Left out

- Rendering, CSS classes, toasts, `navigate(...)` routing and the `isLoading` flag: display only.
- The login form component, the index page and the theme toggle: they change no state the model keeps.
- zod's `.email()` check is a library regular expression not shown in the repository. It is the parameter `isEmail`.
- `Date.now()` ids and `toISOString()` timestamps are parameters. Ids are not claimed unique.
- JSON text: storage holds structured values, and malformed stored data is not modelled.
- `URL.createObjectURL` and `File` objects: the URL is a parameter and the file is an opaque value with a name and a MIME type.
- Storage writes are assumed to succeed. If `localStorage.setItem` throws (a full storage, say), signup falls into its "An unexpected error occurred" branch with `users` unchanged, and login rejects with the session unchanged; `Signup.SubmitStep`, `Signup.SignupPage.HandleSubmit`, `Auth.LoginStep` and `Auth.AuthProvider.Login` report success in that case.
- `login` is `async` but never awaits anything, so it is a synchronous method.
- The restore effect runs once after the first render; the model makes it a separate method (`AuthProvider.Restore`) called after the constructor.
- `Signup.SignupPage.HandleChange`: the source sets the field's error to `undefined`; the model removes the key, which reads the same everywhere the page looks at it.
- `Signup.SignupThenLogin`: holds only under the stated hypothesis about zod's email check, because that check is not part of this model.
- The presentation viewer: in this code it is markup that shows the slide number and file name; no rendering library is called.
