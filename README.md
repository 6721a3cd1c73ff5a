# Jot: sign-up codes, route guard, list helpers and CRUD routes in Dafny

This project models the logic of Jot, a Next.js notes and files app with email-code
sign-up. It covers four parts.

- **The one-time-code sign-up flow.** A code is issued (POST /api/auth/send-otp), checked
  (POST /api/auth/verify-otp) and consumed to create the account (POST
  /api/auth/signup), all over the code records of models/OTP.ts.
  - The code collection is a sequence of records and the user collection a sequence of
    accounts. The current time is an integer number of milliseconds.
  - Each route is a pure function from the stores before the request to the reply and the
    stores after it (`OtpFlow`). It is also an imperative method of a store class
    (`AuthRoutes.AuthDb`), proved equal to that function.
  - `OtpLifecycle` runs any sequence of requests, with the TTL index's background sweep
    as one more kind of step. It proves the invariants and the order
    absent → issued → verified → consumed over whole runs.
- **The route guard of middleware.ts** (`RouteGuard`). It is a function of the path and of
  whether the session token verifies.
- **The list helpers of the notes and files pages**:
  - note and file filtering and ordering;
  - tag counting, tag merging and removal;
  - the 32-bit string hash behind the palette colours;
  - relative-time buckets;
  - folder extraction and MIME icons;
  - the delete and create list updates.

  The parts that loop or update page state in place are methods: `NotesPage.NotesBoard`,
  `FilesPage.FilesView`, `NotesPage.CountTags` and `Palette.StringHash`. Each is proved
  against a specification function.
- **The CRUD routes for notes, files, folders and the user profile**:
  - the authentication gates and owner scoping;
  - query building and ordering;
  - create defaults and validation;
  - the profile update's trim / clear / keep rule.

  Each route is a pure function returning the reply and the new collection. A class holding
  the collection has a method proved equal to it.

Shared pieces live in their own modules:
- `Wrappers`, `Json` and `Http`: the JSON body values and the HTTP replies.
- `Text`: trimming, ASCII lower-casing, substring tests, split and join, decimal rendering.
- `Seqs`: filtering, de-duplication, and the stable sort that models `Array.prototype.sort`
  and MongoDB's `.sort` over a rank key.
- `Records`: the documents of the user, note, file and folder collections.

## Model

| member | source | states |
|---|---|---|
| OtpModel.CreateRecord | models/OTP.ts:11-17 | A created record has the normalised email, the code, `createdAt = now`, zero attempts and `verified = false`; an empty email or code fails validation |
| OtpModel.NormaliseGivesNormalised | models/OTP.ts:12 | The lower-casing, trimming setter yields an email with no upper-case letter and no whitespace at either end, no longer than the input |
| OtpModel.NormaliseIdempotent | app/api/auth/send-otp/route.ts:25 | Normalising twice is normalising once, so the schema setters leave the route's key unchanged |
| OtpModel.AtMostOnePerEmail | app/api/auth/send-otp/route.ts:29-34 | In a valid collection each email has at most one record |
| Seqs.FirstIndex | app/api/auth/verify-otp/route.ts:18 | `findOne`/`findById`/`findOneAndUpdate`'s match: the position of the first element satisfying the filter, with none before it, or none at all |
| Seqs.SortByRankIsStable | app/notes/page.tsx:347-352 | The comparator sort is stable: the elements of each rank come out in their input order |
| OtpModel.LookupFindsStored | app/api/auth/verify-otp/route.ts:18 | With unique emails, `findOne` returns the one record stored for the email |
| OtpModel.RemoveKeepsOthers | app/api/auth/verify-otp/route.ts:24-41 | `deleteOne` on a record keeps the collection valid, makes its email unfindable and leaves every other email's lookup and records unchanged |
| OtpModel.UpdateKeepsOthers | app/api/auth/verify-otp/route.ts:35-51 | Saving a changed record (same email) makes the email find the new version and leaves every other email unchanged |
| OtpModel.FilterKeepsValid | models/OTP.ts:14 | Deleting records by any condition (`deleteMany`, the TTL sweep) keeps the collection invariant |
| OtpModel.WithoutEmailKeepsOthers | app/api/auth/send-otp/route.ts:30 | After `deleteMany({ email })` no record of the email is left and other emails find what they found before |
| OtpModel.ReplaceEmailRecords | app/api/auth/send-otp/route.ts:29-34 | Delete-many then create leaves exactly one record for the email, the new one, and other emails untouched |
| OtpFlow.IssueRejectsMalformed | app/api/auth/send-otp/route.ts:17-19 | A missing, empty or non-string email gets 400 "Email is required" and the store is unchanged |
| OtpFlow.IssueNeedsTransport | app/api/auth/send-otp/route.ts:21-23 | Without mail credentials the reply is 500 and the store is unchanged |
| OtpFlow.IssueSteps | app/api/auth/send-otp/route.ts:25-58 | For a usable email the key's records are replaced by one fresh record whatever delivery does; the reply is 200 "OTP sent successfully" on delivery and 500 on a mail error, with the new record kept |
| OtpFlow.IssueInstallsFreshCode | app/api/auth/send-otp/route.ts:29-34 | After a successful issue the key finds a record with the sent code, zero attempts, unverified, created now |
| OtpFlow.IssueKeepsValid | app/api/auth/send-otp/route.ts:17-58 | Every code request keeps the collection invariant |
| OtpFlow.IssueBlankEmail | app/api/auth/send-otp/route.ts:17-34 | A whitespace-only email passes the guard, fails the schema's required check on the empty key: 500, store unchanged |
| OtpFlow.IssueKeyedByNormalisedEmail | app/api/auth/send-otp/route.ts:25 | Two spellings that normalise alike give the same reply and store |
| OtpFlow.VerifyRejectsMalformed | app/api/auth/verify-otp/route.ts:10-12 | A missing, empty or non-string email or code gets 400 and nothing changes |
| OtpFlow.VerifyUnknownEmail | app/api/auth/verify-otp/route.ts:14-21 | No record under the normalised email gives 400 "OTP not found or expired" and nothing changes |
| OtpFlow.VerifyExpiry | app/api/auth/verify-otp/route.ts:23-28 | "OTP expired" is answered exactly when the record is more than 300000 ms old (exactly 300000 ms is still checked), and the record is then deleted |
| OtpFlow.VerifyExhausted | app/api/auth/verify-otp/route.ts:30-33 | A record with three or more attempts is deleted and refused whatever code is sent |
| OtpFlow.VerifyWrongCode | app/api/auth/verify-otp/route.ts:35-45 | A wrong code adds exactly one attempt; reaching three deletes the record, otherwise it is saved and the reply reports `3 - attempts` attempts left |
| OtpFlow.VerifyRightCode | app/api/auth/verify-otp/route.ts:47-51 | The right code sets `verified`, keeps the attempts and keeps the record |
| OtpFlow.VerifyKeepsValid | app/api/auth/verify-otp/route.ts:18-51 | Checking a code keeps the invariant (no stored record reaches three attempts) and never changes another email's record |
| OtpFlow.CheckRecordKeepsValid | app/api/auth/verify-otp/route.ts:24-51 | The checks on a found record (age, used-up attempts, the code) keep the invariant and change no record of another email |
| OtpFlow.RegisterRejectsMissing | app/api/auth/signup/route.ts:14-19 | A falsy email or password gives 400 and nothing changes |
| OtpFlow.RegisterRejectsShortPassword | app/api/auth/signup/route.ts:21-26 | A truthy password whose `length` is below six (a string or an array) gives 400 and nothing changes |
| OtpFlow.RegisterExistingAccount | app/api/auth/signup/route.ts:30-37 | An existing account gives 409 and nothing changes, even with a verified code waiting |
| OtpFlow.RegisterNeedsVerifiedCode | app/api/auth/signup/route.ts:39-46 | No record or an unverified record gives 400 "Email not verified" and nothing changes |
| OtpFlow.RegisterStaleCode | app/api/auth/signup/route.ts:48-56 | A verified code older than five minutes is deleted and the sign-up refused with 400 |
| OtpFlow.RegisterCreatesAccount | app/api/auth/signup/route.ts:58-92 | A verified fresh code yields exactly one new account under the normalised email with the bcrypt hash, consumes the code, and sets the `SessionCookie`: named `token`, http-only, lax, path `/`, secure in production, 604800 s, with a token for the new id expiring seven days after it was signed |
| OtpFlow.RegisterKeepsValid | app/api/auth/signup/route.ts:30-70 | Sign-up keeps both collections' invariants: no two accounts share an email or an id |
| OtpFlow.ConsumeCodeKeepsValid | app/api/auth/signup/route.ts:40-70 | The steps after the code is found keep both invariants, add at most one account and change no record of another email |
| OtpFlow.AddAccountKeepsValid | app/api/auth/signup/route.ts:62-67 | Creating an account under a new normalised email with a new id keeps emails and ids unique |
| OtpFlow.RegisterConsumesVerifiedCode | app/api/auth/signup/route.ts:39-70 | Sign-up leaves the code store alone or removes its own email's record, and adds an account only for an email whose code was verified |
| AuthRoutes.GenerateOtp | app/api/auth/send-otp/route.ts:9-11 | The code is a six-digit decimal string whose value lies in 100000..999999 |
| AuthRoutes.AuthDb.SendOtp | app/api/auth/send-otp/route.ts:13-63 | The method's reply and new stores are those of `OtpFlow.Issue`, and the invariant is kept |
| AuthRoutes.AuthDb.VerifyOtp | app/api/auth/verify-otp/route.ts:6-56 | The method's reply and new stores are those of `OtpFlow.Verify`, and the invariant is kept |
| AuthRoutes.AuthDb.CheckFound | app/api/auth/verify-otp/route.ts:23-51 | The in-place deletes and saves on the found record leave the reply and store that `OtpFlow.CheckRecord` gives |
| AuthRoutes.AuthDb.Signup | app/api/auth/signup/route.ts:10-102 | The method's reply and new stores are those of `OtpFlow.Register`, and the invariant is kept |
| OtpLifecycle.StepKeepsInv | models/OTP.ts:11-17 | Any request or TTL sweep keeps both collections' invariants |
| OtpLifecycle.RunKeepsInv | app/api/auth/send-otp/route.ts:29-34 | After any sequence of requests no email has two codes, stored attempts stay in 0..2 and no two accounts share an email |
| OtpLifecycle.SendKeepsOtherKeys | app/api/auth/send-otp/route.ts:25-34 | A code request changes nothing outside the normalised email it names |
| OtpLifecycle.StepLeavesAbsentOnlyBySend | app/api/auth/send-otp/route.ts:29-34 | An email with no code gets one only through a code request for that email |
| OtpLifecycle.StepVerifiesOnlyOnRightCode | app/api/auth/verify-otp/route.ts:47-51 | A code becomes verified only through a check for its email with the stored code while fresh |
| OtpLifecycle.StepCreatesAccountOnlyWhenVerified | app/api/auth/signup/route.ts:39-70 | An account appears only through a sign-up for its email while its code is verified, and that code is consumed |
| OtpLifecycle.RunWithoutSendStaysAbsent | app/api/auth/send-otp/route.ts:29-34 | Without a code request for an email it never has a code |
| OtpLifecycle.RunWithoutSendCreatesNoAccount | app/api/auth/signup/route.ts:39-46 | Without a code request for an email no account for it is created |
| OtpLifecycle.CheckSingleRecord | app/api/auth/verify-otp/route.ts:14-51 | A check against a single fresh record: right code verifies, wrong code counts down or deletes |
| OtpLifecycle.AttemptsLeftWording | app/api/auth/verify-otp/route.ts:41-43 | The wrong-code replies read "2 attempt(s) left" and "1 attempt(s) left" |
| OtpLifecycle.WrongCodesLockOut | app/api/auth/verify-otp/route.ts:30-45 | Three wrong codes delete the record, and the right code sent afterwards gets "OTP not found or expired" |
| RouteGuard.DashboardNeedsToken | middleware.ts:23-27 | A path under `/dashboard` passes exactly when the token is valid, otherwise it goes to `/login` |
| RouteGuard.AuthPagesOnlySignedOut | middleware.ts:30-34 | `/login` and `/signup` redirect to `/dashboard` with a valid token and pass without one |
| RouteGuard.RootAlwaysRedirects | middleware.ts:37-42 | `/` goes to `/dashboard` with a valid token and to `/login` otherwise |
| RouteGuard.RedirectTargets | middleware.ts:18-45 | Redirects only go to `/login` (token invalid) or `/dashboard` (token valid); every other path passes |
| RouteGuard.MatcherCoversDashboard | middleware.ts:47-49 | On matched paths the routing is the guard's decision; `/dashboards` is outside the matcher although the guard's prefix test would redirect it |
| RouteGuard.NoRedirectLoop | middleware.ts:18-49 | With the same token, the page a redirect leads to passes through |
| Palette.HashIsPolynomial | app/notes/page.tsx:290-294 | The shift-subtract-add loop computes the polynomial hash `31 * h + code` reduced to a signed 32-bit value |
| Palette.StringHash | app/notes/page.tsx:290-294 | The loop's result is the signed 32-bit reduction of the polynomial hash |
| Palette.TagColour | app/notes/page.tsx:288-296 | The colour is an entry of the six-colour tag palette chosen by `abs(hash) % 6`, a function of the name only |
| Palette.FolderColour | app/notes/page.tsx:299-314 | The colour is an entry of the six-colour folder palette chosen by `abs(hash) % 6` |
| Palette.SmallNames | app/notes/page.tsx:288-296 | "a" hashes to 97 and takes tag colour 1; the empty name takes colour 0 |
| RelativeTime.Buckets | app/notes/page.tsx:388-403 | Each unit covers exactly its interval of ages (minute, hour, day, 7, 30, 365 days) and shows the age rounded down in that unit |
| RelativeTime.UnitsGrowWithAge | app/files/page.tsx:261-276 | An older item never shows a smaller unit |
| RelativeTime.RenderNamesUnit | app/notes/page.tsx:396-401 | "Just now" is shown exactly under a minute; minutes and months render as count plus "m ago" / "mo ago" |
| NotesPage.FilteredNotesSpec | app/notes/page.tsx:330-353 | The listed notes are exactly the input notes in the folder, with the tag and matching the query, each as often as in the input, pinned first and each group most recently updated first |
| NotesPage.SearchKeepsSpaces | app/notes/page.tsx:339-345 | The query is tested trimmed but matched untrimmed: "work " is non-blank yet misses a note titled "work" |
| NotesPage.NotesBoard.GetFilteredNotes | app/notes/page.tsx:330-353 | Returns the filtered, ordered notes; with no filter in force the page's own list is reordered in place, otherwise it is unchanged |
| NotesPage.TagEntriesSpec | app/notes/page.tsx:317-323 | The tag map's entries are distinct, cover every tag in use, and each carries its number of uses |
| NotesPage.AllTagsSpec | app/notes/page.tsx:317-327 | Every tag in use is listed once with its count of uses across all notes, nothing else is listed, larger counts first |
| NotesPage.CountOne | app/notes/page.tsx:321 | Adding one tag to the tally keeps names in first-appearance order and counts equal to occurrences |
| NotesPage.CountNoteTags | app/notes/page.tsx:320-322 | The inner loop extends the tally by one note's tags |
| NotesPage.CountTags | app/notes/page.tsx:317-327 | The nested loops and the sort return exactly the specified tag list |
| NotesPage.NotesBoard.GetAllTags | app/notes/page.tsx:317-327 | Returns the specified tag list and changes no page state |
| NotesPage.NewTagsClean | app/notes/page.tsx:1011 | Each piece of the comma split is trimmed, non-empty and comma-free |
| NotesPage.MergeTagsSpec | app/notes/page.tsx:1008-1026 | A blank input changes nothing; otherwise the result has no repeats and holds exactly the existing and the new tags, and a repeat-free existing list stays in place as its prefix |
| NotesPage.RemoveTagSpec | app/notes/page.tsx:1052-1056 | Removing the tag at a position takes out exactly that occurrence and keeps the rest in order: reinserting it there gives the list back |
| NotesPage.FolderForNewNote | app/notes/page.tsx:229 | A new note goes to the selected folder, or "General" under "all" |
| NotesPage.NotesBoard.CreateNote | app/notes/page.tsx:226-252 | The created note is put at the head of the list; a failed create changes nothing |
| NotesPage.NotesBoard.DeleteNote | app/notes/page.tsx:357-385 | A successful delete removes exactly the notes with the edited note's id and closes the editor; otherwise nothing changes |
| NotesPage.DeleteAbsentIsNoOp | app/notes/page.tsx:378 | Deleting an id no listed note has leaves the list as it was |
| FilesPage.FilteredFilesSpec | app/files/page.tsx:279-292 | The listed files are exactly the input files whose lower-cased name contains the lower-cased query (all of them for a blank query), each as often as in the input, newest first |
| FilesPage.FilesView.GetFilteredFiles | app/files/page.tsx:279-292 | Returns the filtered, ordered files; with a blank query the page's own list is reordered in place |
| FilesPage.FoldersSpec | app/files/page.tsx:296-299 | Each folder some file is in is listed exactly once, except the empty name and "General" |
| FilesPage.FileIconSpec | app/files/page.tsx:254-258 | Image icon exactly for `image/` types; document icon exactly for `application/pdf` or `text/` types that are not images; generic otherwise |
| FilesPage.FileIconExamples | app/files/page.tsx:254-258 | PNG is an image, PDF and plain text are documents, ZIP is generic |
| FilesPage.DeleteRemovesOne | app/files/page.tsx:237 | With distinct ids, deleting an id removes one file when present and none otherwise |
| FilesPage.FilesView.DeleteFile | app/files/page.tsx:228-244 | A confirmed, accepted delete removes exactly the files with that id and clears the preview only when it showed that file; otherwise nothing changes |
| FilesPage.FilesView.FileSelect | app/files/page.tsx:190-199 | An upload starts exactly for a non-empty selection; an empty or missing one changes nothing |
| NotesApi.ListSpec | app/api/notes/route.ts:9-68 | No token or a rejected one gets 401; a caller gets exactly their notes in the folder asked for (a non-empty parameter, trimmed as the schema's setter casts it) that match the search, pinned first, then most recently updated |
| NotesApi.PaddedFolderMatches | models/Note.ts:34-38 | `?folder=%20Work` lists the caller's note filed under "Work": the queried folder passes the schema's `trim` setter |
| NotesApi.CreateSpec | app/api/notes/route.ts:71-134 | A create answers 201 with a new-id note appended, owned by the caller, unpinned, defaults for omitted fields, title and folder trimmed; an all-space title fails; every failure leaves the collection unchanged |
| NotesApi.EmptyBodyDefaults | app/api/notes/route.ts:112-118 | An empty body creates and appends "Untitled Note" in "General" with empty content and no tags |
| NotesApi.BlankTitleFails | app/api/notes/route.ts:112-131 | A title of spaces only is kept over the default and trimmed to the empty title the schema refuses: 500 and no insert |
| NotesApi.NotesDb.Post | app/api/notes/route.ts:71-134 | The method's reply and new collection are those of `NotesApi.Create` |
| FilesApi.ListSpec | app/api/files/route.ts:7-54 | No token gets 401 and a rejected token 500; a caller gets exactly their files in the folder (unless absent, empty or "all") and type class asked for, newest first |
| FilesApi.DocumentFilterWiderThanIcon | app/api/files/route.ts:37-38 | "application/pdfx" is listed under the document filter yet drawn with the generic icon |
| FilesApi.MoveSpec | app/api/files/route.ts:57-100 | A move succeeds exactly for a caller naming a file they own and a non-empty folder, changing only that file's folder; no token gives 401 and a rejected one 500; missing fields give 400, a foreign or unknown file 404; failures change nothing |
| FilesApi.FilesDb.Patch | app/api/files/route.ts:57-100 | The method's reply and new collection are those of `FilesApi.Move` |
| FoldersApi.ListSpec | app/api/folders/route.ts:9-49 | Both token failures get 401; a caller gets exactly their folders, oldest first |
| FoldersApi.CreateSpec | app/api/folders/route.ts:52-109 | A folder is created exactly for a caller with a non-blank name: appended with a new id, the caller as owner, the name trimmed, the colour given or `#3b82f6`, trimmed; both token failures give 401, a blank name 400; failures change nothing |
| FoldersApi.FoldersDb.Post | app/api/folders/route.ts:52-109 | The method's reply and new collection are those of `FoldersApi.Create` |
| ProfileApi.GateSpec | app/api/user/profile/route.ts:12-25 | A user is found exactly for a verified token whose `userId` names a stored user |
| ProfileApi.GetSpec | app/api/user/profile/route.ts:27-37 | GET answers 401 unless a user is found, then shows the email and `''` for each absent profile field |
| ProfileApi.UpdateThenGet | app/api/user/profile/route.ts:39-59 | PUT fails with 401 exactly when GET does; otherwise it edits only the caller's document, clears omitted fields, trims strings, keeps non-strings and the email, and its echo is what a later GET shows |
| ProfileApi.UsersDb.Put | app/api/user/profile/route.ts:39-64 | The method's reply and new collection are those of `ProfileApi.Update` |
| ProfileApi.PutAsWrittenLosesName | models/User.ts:9-26 | Under the schema as written, a saved non-blank name is echoed by PUT but a later GET shows it empty |
| ProfileApi.SignupThenGet | app/api/auth/signup/route.ts:58-92 | With the profile fields in the schema, a GET with the cookie sign-up sets shows the new account's normalised email, name and mobile number |
| ProfileApi.SignupAsWrittenLosesName | models/User.ts:9-26 | Under the schema as written, the same GET right after sign-up shows the name and mobile number empty |

## Left out

- Rendering, styling, animation and the pages that only render (layout, home, dashboard, login, the components, lib/animations.ts) are not part of this model; the sign-up and profile pages' UI state is not modelled either, because it only mirrors the routes' replies.
- lib/uploadthing.ts is not part of this model: it configures an upload library whose code is not available.
- `bcrypt.hash`, JWT signing and verification, the mail transport and `Math.random` are oracles: `Bcrypt` is an uninterpreted function, token checks are inputs (`Session`, `TokenCheck`, `tokenValid`), delivery is a `MailResult` input, and the random draw is any integer of the range.
- MongoDB and Mongoose are modelled as sequences of documents. A query that cannot reach the database, a malformed id that fails the ObjectId cast, and a `request.json()` that throws all give 500 in the source and are not modelled.
- The TTL index's background deletion is an explicit `Sweep` step of `OtpLifecycle.Run`, not something that happens by itself.
- Concurrent requests are not modelled: each request is one atomic step, so the races between issuing's delete and insert and between verification's read and save do not arise.
- NotesApi.ListSpec: the `search` parameter is a raw regular expression; matching is an oracle (`RegexMatch`), so the contract does not say what a pattern matches.
- Ties in MongoDB's `.sort` are left in an unspecified order by the database; the model keeps store order among equal keys (a stable sort).
- A verified token whose payload has no `userId` is not a separate case for the notes, files and folders routes: `Session.Caller` always carries an id. The profile route does model it, as `Accepted(None)`.
- Non-string JSON values in the notes, files and folders bodies are not modelled: each field is `Option<string>` (or `Option<seq<string>>` for tags), `None` standing for an absent or falsy field.
- OtpFlow.Register: a truthy non-string email is answered with 500, abstracting the exceptions `trim` or the schema cast would raise on it; `fullName` and `mobileNumber` are taken as strings (`''` when absent), so a non-string value for them and the schema cast it would meet are not modelled; a non-string password that passes the length test reaches `bcrypt.hash`, which throws, and is answered with 500.
- The success `message` texts of the CRUD replies and the extra `details` fields of the 500 replies are not modelled; the status and the payload document are.
- Strings are sequences of characters, not UTF-16 code units; `toLowerCase` is modelled on ASCII letters only, and `trim` uses a fixed set of whitespace characters.
- `formatFileSize` is not modelled: it works in floating point with `toFixed`.
- `getRelativeTime` takes the millisecond difference as an integer: date parsing and the clock are not modelled.
- The files page's confirmation dialog and the server's answer are inputs of `DeleteFile`; its `deleting` flag and the upload progress reporting after the first step are not modelled.

## Findings

| source | as written | input that shows it | evidently intended | confidence | as-written member | corrected member |
|---|---|---|---|---|---|---|
| models/User.ts:9-26 | The user schema declares only `email`, `password` and `createdAt`; under Mongoose's default strict mode the `fullName`, `mobileNumber` and `profilePictureUrl` that the profile PUT (app/api/user/profile/route.ts:47-51) and sign-up (app/api/auth/signup/route.ts:62-67) assign are not saved | PUT `{ fullName: "Ada" }` then GET: the PUT reply shows "Ada", the GET shows "" | The profile fields are declared in the schema and persist, so a GET after PUT shows what PUT echoed | not executed | ProfileApi.PutAsWrittenLosesName | ProfileApi.UpdateThenGet |
| models/User.ts:9-26 | The same schema drops the `fullName` and `mobileNumber` that sign-up passes to `User.create` (app/api/auth/signup/route.ts:62-67) | Sign up with `{ fullName: "Ada" }`, then GET /api/user/profile with the cookie set: the name shows "" | The account keeps the name and mobile number given at sign-up | not executed | ProfileApi.SignupAsWrittenLosesName | ProfileApi.SignupThenGet |
