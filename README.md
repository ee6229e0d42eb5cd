# Bridge Notary site: a verified model of its client-side core

This Dafny project models the client-side logic of the Bridge Notary marketing and
booking site, a React progressive web app. It covers:

- **Form validation** (`src/utils/formValidation.ts`): the e-mail and phone checks,
  phone formatting, and `validateRequestForm`, which collects one error per failed check.
- **Class names** (`src/utils/classNames.ts`): joining the truthy class arguments with spaces.
- **Form submission** (`src/services/formSubmissionService.ts`): posting a request form,
  and saving it in the IndexedDB store `pendingSubmissions` when the post fails.
- **The service worker** (`src/sw.ts`):
  - routing of fetch events, the network-first and cache-first strategies over the
    Cache API, and pre-caching on install;
  - deletion of old caches on activate;
  - the background sync that replays the saved submissions and deletes the ones the
    server answered.
- **The booking page** (`src/pages/book/index.tsx`): its form state, the change handler
  and the submit handler.
- **The client portal** (`src/pages/client-portal/index.tsx`): the demo sign-in and
  sign-out, the tab switch, and the status badges.

State the source changes in place is modelled as classes, each with a `Valid()` invariant:

- `PendingStore.Database`: the IndexedDB database and its object store.
- `ServiceWorker.Worker`: the cache names, the caches and a log of the requests sent.
- `BookingPage.Page` and `ClientPortal.Portal`: the pages' React state hooks.

Pure helpers are modelled as functions with lemmas.

The network, the clock and the JSON parser are parameters:

- a fetch outcome, or a function from request to outcome;
- `now` and the ISO time strings;
- a function from body text to a parsed body.

Files, in dependency order:

| file | module | models |
|---|---|---|
| `options.dfy` | `Options` | an optional value |
| `js_string.dfy` | `JsString` | the JavaScript string operations the source uses (`trim`, `replace(/\D/g, '')`, `join`, `split`, `toString`) |
| `fetch_api.dfy` | `FetchApi` | requests, responses and the outcome of `fetch` |
| `pending_store.dfy` | `PendingStore` | the `bridgenotary` IndexedDB database and its `pendingSubmissions` store |
| `form_validation.dfy` | `FormValidation` | `formValidation.ts` |
| `class_names.dfy` | `ClassNames` | `classNames.ts` |
| `service_worker.dfy` | `ServiceWorker` | `sw.ts` |
| `form_submission.dfy` | `FormSubmission` | `formSubmissionService.ts`, and the page and the worker sharing one database |
| `booking_page.dfy` | `BookingPage` | the booking page |
| `client_portal.dfy` | `ClientPortal` | the client portal page |

Behaviour that follows from the code and that the model makes explicit:

- The sync deletes a pending record whenever the server answers, whatever the status
  (`response.ok` is not checked). It keeps a record only when `fetch` rejects.
- `caches.match` searches every cache, in creation order, and not only the cache a
  strategy writes to. The API cache is never written: `networkFirst` stores every
  successful response in the runtime cache, API responses included.
- `validatePhone` counts digits (10 to 14) and ignores every other character;
  `PHONE_REGEX` is declared but never used.
- `classNames` drops the empty string as well as `undefined`, `null` and `false`,
  because `filter(Boolean)` treats `""` as falsy.
- `savePendingSubmission` opens the database with an upgrade handler, but the service
  worker opens it without one. When the worker's sync runs before the page has ever
  saved, the worker creates version 1 with no object store. After that, every save's
  transaction throws inside `onsuccess`, and its promise never settles.
  `FormSubmission.SaveAfterFirstSync` proves this.
  The booking page then stays in its loading state: `loading` stays true.
  The hazard is latent: it needs a `sync` event with the tag `sync-forms`, and nothing
  in the site registers that tag. The build configuration (`vite.config.ts:12`) also
  generates its own service worker, so `sw.ts` may not be the worker that is deployed.
- On the booking page, the phone is validated as typed. The submission service formats
  it before sending. `FormSubmission.FormatPayloadKeepsErrors` proves that formatting
  never changes the validation outcome.

## Model

| member | source | states |
|---|---|---|
| JsString.Digits | src/utils/formValidation.ts:23 | the digit filter `replace(/\D/g, '')` is never longer than its input |
| JsString.DigitsSpec | src/utils/formValidation.ts:23 | the filter leaves only digits, and leaves a string of digits whole |
| JsString.DigitsAppend | src/utils/formValidation.ts:28 | the digits of a concatenation are the digits of each part, in order |
| JsString.AllWhiteSpaceAppend | src/utils/formValidation.ts:52 | joining two white-space strings gives a white-space string |
| JsString.TrimStart | src/utils/formValidation.ts:52 | `trimStart` removes a white-space prefix and nothing else, and the result does not start with white space |
| JsString.TrimEnd | src/utils/formValidation.ts:52 | `trimEnd` removes a white-space suffix and nothing else, and the result does not end with white space |
| JsString.Trim | src/utils/formValidation.ts:52 | definition: `trim` is `trimEnd` of `trimStart`; `TrimEmptyIffAllWhiteSpace` states when it is empty |
| JsString.TrimEmptyOnlyIfAllWhiteSpace | src/utils/formValidation.ts:52 | a string that trims to empty is all white space |
| JsString.AllWhiteSpaceTrimsToEmpty | src/utils/formValidation.ts:52 | an all-white-space string trims to empty |
| JsString.TrimEmptyIffAllWhiteSpace | src/utils/formValidation.ts:52 | `!s.trim()` holds exactly when every character is white space |
| JsString.Split | src/utils/classNames.ts:5 | `split` on one character, the inverse used to state the join round trip (not called by the source); it always yields at least one part |
| JsString.SplitAround | src/utils/classNames.ts:5 | for the join round trip (not called by the source): splitting at the first separator gives the text before it, then the split of the rest |
| JsString.SplitWithout | src/utils/classNames.ts:5 | for the join round trip (not called by the source): a string without the separator splits into itself |
| JsString.SplitJoin | src/utils/classNames.ts:5 | the join of `classNames` has an inverse: splitting a join on its one-character separator gives back the parts when no part holds the separator |
| JsString.Join | src/utils/classNames.ts:5 | definition: `join(sep)`, the parts with the separator between consecutive ones; `JoinAppend` and `SplitJoin` state its properties |
| JsString.NatToString | src/services/formSubmissionService.ts:73 | `Date.now().toString()` is a non-empty digit string with no leading zero |
| JsString.ParseNatToString | src/services/formSubmissionService.ts:73 | reading the decimal key back gives the clock value (a round trip) |
| JsString.NatToStringInjective | src/services/formSubmissionService.ts:73 | different clock readings give different keys |
| FormValidation.IndexOf | src/utils/formValidation.ts:15 | the position found is the first occurrence of the character, or the length when there is none |
| FormValidation.MatchesEmailRegex | src/utils/formValidation.ts:15 | definition: the language of EMAIL_REGEX, a non-empty run without white space or `@`, an `@`, a domain with a `.` that has a non-empty run on each side |
| FormValidation.ValidateEmail | src/utils/formValidation.ts:18-20 | definition: the scan that `ValidateEmailIsRegex` proves equal to `EMAIL_REGEX.test` |
| FormValidation.ValidateEmailMatches | src/utils/formValidation.ts:15-20 | an address `validateEmail` accepts matches EMAIL_REGEX |
| FormValidation.MatchesValidateEmail | src/utils/formValidation.ts:15-20 | an address that EMAIL_REGEX matches, with its `@` and `.` at the given positions, is accepted by `validateEmail` |
| FormValidation.ValidateEmailIsRegex | src/utils/formValidation.ts:15-20 | `validateEmail(s)` is exactly `EMAIL_REGEX.test(s)`, in both directions |
| FormValidation.ValidEmailIsNotBlank | src/utils/formValidation.ts:56-59 | an address that passes the regex is never blank, so "Invalid email address" and "Email is required" cannot both be earned |
| FormValidation.LocalFormatDigits | src/utils/formValidation.ts:30 | the punctuation of `(aaa) bbb-eeee` contributes no digits |
| FormValidation.CountryFormatDigits | src/utils/formValidation.ts:32 | the punctuation of `+1 (aaa) bbb-eeee` contributes only the leading 1 |
| FormValidation.ValidatePhone | src/utils/formValidation.ts:22-25 | definition: 10 to 14 digits, other characters ignored; `PhoneCheckSpec` and `FormatPhoneKeepsValidity` use it |
| FormValidation.LocalFormatted | src/utils/formValidation.ts:29-30 | ten digits laid out as `(ddd) ddd-dddd` have that shape and keep their digits |
| FormValidation.CountryFormatted | src/utils/formValidation.ts:31-32 | eleven digits led by 1 laid out as `+1 (ddd) ddd-dddd` have that shape and keep their digits |
| FormValidation.FormatPhoneNumber | src/utils/formValidation.ts:27-35 | formatting keeps the digits: ten digits give the local shape, eleven led by 1 the country shape, any other input comes back unchanged |
| FormValidation.FormatPhoneNumberIdempotent | src/utils/formValidation.ts:27-35 | formatting a formatted number changes nothing |
| FormValidation.Blank | src/utils/formValidation.ts:52 | definition: the falsiness of `s?.trim()`; `BlankIsTrimEmpty` proves it equal to an empty `trim` |
| FormValidation.BlankIsAllWhiteSpace | src/utils/formValidation.ts:52 | the blank test used by the checks is "all white space" |
| FormValidation.BlankIsTrimEmpty | src/utils/formValidation.ts:52 | the blank test is the falsiness of `s.trim()` |
| FormValidation.FieldCheck | src/utils/formValidation.ts:52-74 | definition: each field's `if` chain and its message; `EmailCheckSpec` and `PhoneCheckSpec` state the two-branch checks |
| FormValidation.ExpectedErrors | src/utils/formValidation.ts:49-75 | definition: the failed checks in source order; `ExpectedErrorsOrdered` and `ExpectedErrorsMembers` characterise it |
| FormValidation.CollectErrorsCons | src/utils/formValidation.ts:49-75 | the list for several fields is the first field's error followed by the list for the rest |
| FormValidation.CollectErrorsInOrder | src/utils/formValidation.ts:49-75 | the checks run in the order fullName, email, phone, serviceType, termsAccepted, each adding at most one error |
| FormValidation.ValidateRequestForm | src/utils/formValidation.ts:49-80 | the five checks, pushing in turn, build exactly the specified error list, and `isValid` holds exactly when that list is empty |
| FormValidation.CollectErrorsOrdered | src/utils/formValidation.ts:49-75 | the errors follow the order of the checked fields, at most one per field |
| FormValidation.CollectErrorsMembers | src/utils/formValidation.ts:49-75 | an error is listed exactly when its field is checked and its check yields that message |
| FormValidation.CollectErrorsAgree | src/utils/formValidation.ts:49-75 | two forms whose checks agree on every field get the same error list |
| FormValidation.ExpectedErrorsOrdered | src/utils/formValidation.ts:49-75 | `validateRequestForm` reports at most one error per field, in check order |
| FormValidation.ExpectedErrorsMembers | src/utils/formValidation.ts:49-75 | `validateRequestForm` reports exactly the failed checks, each with its message |
| FormValidation.EveryFieldIsChecked | src/utils/formValidation.ts:52-74 | every field that can carry an error is checked |
| FormValidation.EmailCheckSpec | src/utils/formValidation.ts:56-60 | a blank e-mail gets "Email is required"; the e-mail passes exactly when `validateEmail` accepts it |
| FormValidation.PhoneCheckSpec | src/utils/formValidation.ts:62-66 | a blank phone gets "Phone is required"; the phone passes exactly when `validatePhone` accepts it |
| FormValidation.WhiteSpaceHasNoDigits | src/utils/formValidation.ts:22-25 | white space holds no digits, so a blank phone never counts as valid |
| ClassNames.Retained | src/utils/classNames.ts:5 | definition: `filter(Boolean)` over the arguments; `RetainedSpec` and `RetainedAppend` characterise it |
| ClassNames.ClassNames | src/utils/classNames.ts:4-6 | definition: the kept classes joined by a space; `ClassNamesEmptyIffAllFalsy`, `ClassNamesAppend` and `ClassNamesSplit` state its properties |
| ClassNames.RetainedSpec | src/utils/classNames.ts:5 | `filter(Boolean)` keeps exactly the non-empty strings, in order, and never keeps `""` |
| ClassNames.RetainedAppend | src/utils/classNames.ts:5 | filtering distributes over concatenated argument lists |
| ClassNames.JoinEmptyOnlyIfEmpty | src/utils/classNames.ts:5 | a join of non-empty strings is empty only when there are none |
| ClassNames.ClassNamesEmptyIffAllFalsy | src/utils/classNames.ts:4-6 | the result is empty exactly when every argument is falsy |
| ClassNames.JoinAppend | src/utils/classNames.ts:5 | joining two non-empty lists is joining each, with the separator between them |
| ClassNames.ClassNamesAppend | src/utils/classNames.ts:4-6 | `classNames(...a, ...b)` is the two results joined by a space, or the non-empty one |
| ClassNames.ClassNamesSplit | src/utils/classNames.ts:4-6 | when no class holds a space, splitting the result on spaces gives back the kept classes (a round trip) |
| PendingStore.Database.constructor | src/services/formSubmissionService.ts:65 | before the site first runs there is no database, no store and no record |
| PendingStore.Database.Open | src/services/formSubmissionService.ts:65-86 | `indexedDB.open('bridgenotary', 1)` creates the database when missing; the store appears only when the opener that creates it has an upgrade handler |
| PendingStore.Database.Add | src/services/formSubmissionService.ts:72-78 | `store.add` inserts when the key is free, and fails without changing the store when the key is taken |
| PendingStore.Database.Delete | src/sw.ts:169-177 | `store.delete(id)` removes exactly that key |
| PendingStore.Database.GetAll | src/sw.ts:159-167 | `getAll` returns every stored record once, and nothing else |
| ServiceWorker.IsStaticAsset | src/sw.ts:73 | definition: the path ends with `.` and one of the eight extensions; `IsStaticAssetByExtension` reads it off the last dot |
| ServiceWorker.Route | src/sw.ts:57-80 | cross-origin requests are not answered; a same-origin request goes cache-first exactly when its path is not under `/api/` and matches the asset pattern, and network-first in every other case |
| ServiceWorker.LastDot | src/sw.ts:73 | the index found holds the last `.` of the path |
| ServiceWorker.ExtensionAfterLastDot | src/sw.ts:73 | a path ending in `.` and a dot-free extension has that extension after its last dot |
| ServiceWorker.LastDotExtension | src/sw.ts:73 | the last dot and the text after it end the path |
| ServiceWorker.EndsWithExtension | src/sw.ts:73 | a path ends with `.ext` for a dot-free extension exactly when `ext` follows its last dot |
| ServiceWorker.IsStaticAssetByExtension | src/sw.ts:73 | the asset pattern holds exactly when the text after the last dot is one of the eight extensions |
| ServiceWorker.ApiIsNetworkFirst | src/sw.ts:67-70 | an `/api/` path is served network-first, whatever its extension |
| ServiceWorker.MatchIn | src/sw.ts:95 | definition: the first cache, in creation order, holding the URL; `MatchInNone` and `MatchInFirst` characterise it |
| ServiceWorker.Lookup | src/sw.ts:95 | definition: `caches.match`, GET requests only; `NonGetIsNeverCached` and `PutThenLookup` state its properties |
| ServiceWorker.MatchInNone | src/sw.ts:95 | `caches.match` finds nothing exactly when no cache holds the URL |
| ServiceWorker.MatchInFirst | src/sw.ts:95 | the cache that answers `caches.match` is the first one, in creation order, that holds the URL |
| ServiceWorker.Opened | src/sw.ts:91 | `caches.open` leaves the name among the cache names |
| ServiceWorker.OpenedCaches | src/sw.ts:91 | `caches.open` leaves a cache under the name |
| ServiceWorker.PutThenLookup | src/sw.ts:91-92 | a response just stored answers the next lookup of its request, unless an older cache holds the same URL |
| ServiceWorker.NonGetIsNeverCached | src/sw.ts:92 | a request that is not GET is never stored and never matched |
| ServiceWorker.NetworkFirstAnswer | src/sw.ts:85-99 | definition: the response `networkFirst` resolves with; `NetworkFirstAnswerSpec` states its three cases |
| ServiceWorker.CacheFirstAnswer | src/sw.ts:104-118 | definition: the response `cacheFirst` resolves with; `StrategiesAgreeOffline` relates it to network-first |
| ServiceWorker.NetworkFirstAnswerSpec | src/sw.ts:85-99 | network-first answers with a successful network response, else a cached copy, else the 503 fallback; an error status from the network is never passed on |
| ServiceWorker.StrategiesAgreeOffline | src/sw.ts:85-118 | with the network failing and nothing cached, both strategies give the same 503 response |
| ServiceWorker.StaticRequests | src/sw.ts:11-15 | install requests one URL per static file |
| ServiceWorker.Outcomes | src/sw.ts:23 | `addAll` fetches every request once |
| ServiceWorker.StoreAllSpec | src/sw.ts:23 | storing the fetched responses puts each one under its URL and leaves every other URL as it was |
| ServiceWorker.AddAll | src/sw.ts:23 | definition: `cache.addAll`, storing every response only when every fetch succeeded; `AddAllAtomic` states it |
| ServiceWorker.AddAllAtomic | src/sw.ts:22-26 | `addAll` stores every response or, when any fetch fails, changes nothing |
| ServiceWorker.StaticRequestsDistinct | src/sw.ts:11-15 | the static files have distinct URLs |
| ServiceWorker.Stale | src/sw.ts:39-44 | definition: the condition of the activate callback; `SurvivingKeepsCurrent` states which caches it spares |
| ServiceWorker.Surviving | src/sw.ts:38-47 | definition: the cache names activation keeps, in order; `SurvivingSpec` and `SurvivingKeepsCurrent` characterise it |
| ServiceWorker.Without | src/sw.ts:45 | a deleted cache name is gone from the cache names |
| ServiceWorker.SurvivingSpec | src/sw.ts:38-47 | a cache name survives activation exactly when it is not stale |
| ServiceWorker.SurvivingNoStale | src/sw.ts:38-47 | with no stale names, activation keeps every name |
| ServiceWorker.SurvivingKeepsCurrent | src/sw.ts:39-44 | activation keeps the three current caches and every cache that is not this site's, and a second activation deletes nothing more |
| ServiceWorker.WithoutAbsent | src/sw.ts:45 | deleting a cache that does not exist changes no name |
| ServiceWorker.DistinctRemove | src/sw.ts:45 | removing one name from distinct cache names leaves distinct names that lack only it |
| ServiceWorker.SurvivingStep | src/sw.ts:38-47 | visiting one more name adds it to the survivors unless it is stale |
| ServiceWorker.ActivateStepRemoves | src/sw.ts:38-47 | deleting a stale name midway through the activate map removes just that name |
| ServiceWorker.ActivateKeep | src/sw.ts:38-47 | a name that is not stale stays where it is |
| ServiceWorker.ActivateDrop | src/sw.ts:38-47 | a stale name is deleted, and the survivors so far are unchanged |
| ServiceWorker.ActivateStepState | src/sw.ts:38-47 | after one step, the names are the survivors so far followed by the names not yet visited |
| ServiceWorker.ActivateStepCaches | src/sw.ts:38-47 | after one step, the caches are the originals minus the stale names seen so far |
| ServiceWorker.WithoutOnce | src/sw.ts:45 | deleting a name that occurs once removes exactly that occurrence |
| ServiceWorker.WithoutAppend | src/sw.ts:45 | deleting from concatenated name lists deletes from each |
| ServiceWorker.Kept | src/sw.ts:134-145 | definition: the records whose replay hit a network error; `SyncDone` proves the loop leaves exactly these |
| ServiceWorker.SyncRequests | src/sw.ts:134-140 | definition: one POST to `/api/request-form` per record visited; `Worker.SyncFormSubmissions` appends exactly these to the request log |
| ServiceWorker.SyncRequestsStep | src/sw.ts:134-140 | one more replay adds exactly one more POST to the log |
| ServiceWorker.SyncStep | src/sw.ts:134-145 | one step of the sync loop deletes the record exactly when its replay got a response |
| ServiceWorker.SyncDone | src/sw.ts:134-145 | after the loop has visited every record, what is left is the records whose replay hit a network error |
| ServiceWorker.Worker.constructor | src/sw.ts:1-15 | a new worker has no caches and has sent nothing |
| ServiceWorker.Worker.OpenCache | src/sw.ts:91 | `caches.open` adds the name last when it is new and otherwise changes nothing |
| ServiceWorker.Worker.Put | src/sw.ts:92 | `cache.put` stores a storable response under its URL in that cache only |
| ServiceWorker.Worker.DeleteCache | src/sw.ts:45 | `caches.delete` removes the cache and its name, keeping the names distinct |
| ServiceWorker.Worker.Fetch | src/sw.ts:87 | `fetch` returns the network's outcome and logs the request |
| ServiceWorker.Worker.NetworkFirst | src/sw.ts:85-99 | returns the network-first answer for the state before the call, and writes only a successful response, into the runtime cache |
| ServiceWorker.Worker.CacheFirst | src/sw.ts:104-118 | returns the cache-first answer; a cache hit sends nothing and changes nothing, a miss writes only a successful response, into the static cache |
| ServiceWorker.Worker.HandleFetch | src/sw.ts:57-80 | answers exactly the same-origin requests, each with the answer of its routed strategy and with that strategy's new caches, names and request log; a cross-origin request touches nothing |
| ServiceWorker.Worker.Install | src/sw.ts:20-29 | opens the static cache, fetches each static file in order and `addAll`s them, all or nothing |
| ServiceWorker.Worker.DeleteIfStale | src/sw.ts:38-47 | the map callback deletes a cache exactly when its name is stale |
| ServiceWorker.Worker.Activate | src/sw.ts:34-52 | after activation, the names are the survivors in their order and the caches lack exactly the stale ones |
| ServiceWorker.Worker.ReplaySubmission | src/sw.ts:135-144 | one turn of the sync loop posts once to `/api/request-form`, and deletes the record exactly when the server answered, whatever the status |
| ServiceWorker.Worker.ReplayAll | src/sw.ts:134-145 | the `for` loop posts once per record, keeps the old log, and deletes exactly the records the server answered |
| ServiceWorker.Worker.SyncFormSubmissions | src/sw.ts:129-167 | replays every pending record once to `/api/request-form`, and sends exactly one request per record after the old log, and leaves exactly the records whose replay hit a network error; with no store, no record changes and nothing is sent (the database is created if it was missing) |
| ServiceWorker.Worker.HandleSync | src/sw.ts:123-127 | the tag `sync-forms` runs the sync, with its records, its request log (the old log followed by one request per record) and database flags; any other tag changes nothing, the database's existence and store included |
| FormSubmission.ApiBaseUrl | src/services/formSubmissionService.ts:8 | a set, non-empty variable is the base; an unset or empty one falls back to the default URL; the base is never empty |
| FormSubmission.SubmitUrl | src/services/formSubmissionService.ts:31 | the endpoint is exactly the base URL followed by `/request-form` |
| FormSubmission.FormatPayload | src/services/formSubmissionService.ts:23-28 | definition: the spread with the phone formatted, the form type and the submission time; `FormatPayloadSpec` and `FormatPayloadKeepsErrors` characterise it |
| FormSubmission.FormatPayloadSpec | src/services/formSubmissionService.ts:23-28 | the payload differs from the form data in the phone only, and the phone keeps its digits |
| FormSubmission.FormatPhoneKeepsValidity | src/services/formSubmissionService.ts:25 | formatting the phone never changes whether it is blank or valid |
| FormSubmission.FormatPayloadKeepsErrors | src/services/formSubmissionService.ts:23-28 | the formatted payload gets exactly the validation errors the form data got |
| FormSubmission.SubmitOutcomeOf | src/services/formSubmissionService.ts:19-58 | definition: how the promise ends, from the database before the call and the POST's outcome; `SubmitOutcomeSuccess` states its cases |
| FormSubmission.SubmitOutcomeSuccess | src/services/formSubmissionService.ts:19-58 | success is reported exactly when the post was accepted; the offline answer carries no id; a hang needs a database that exists without its store |
| FormSubmission.RecordKey | src/services/formSubmissionService.ts:73 | the record key is a non-empty digit string |
| FormSubmission.RecordKeysDiffer | src/services/formSubmissionService.ts:73 | saves at different clock readings never compete for a key |
| FormSubmission.SavePendingSubmission | src/services/formSubmissionService.ts:63-88 | the save opens with an upgrade handler and adds the record under its key; a taken key rejects; a missing store makes the promise never settle |
| FormSubmission.SubmitRequestForm | src/services/formSubmissionService.ts:19-58 | the formatted payload is posted to the endpoint; an ok response with a readable body returns success and the server's id, touching no store; any failure saves that payload and returns the offline message, unless the save rejects or hangs |
| FormSubmission.SaveAfterFirstSync | src/services/formSubmissionService.ts:65-86 | a save made after the worker's first sync has created the database never settles |
| FormSubmission.SaveThenSync | src/sw.ts:129-149 | a first save succeeds, and the next sync deletes the record unless its replay hits a network error |
| BookingPage.Updated | src/pages/book/index.tsx:35-42 | the changed input takes the event's value and every other input keeps its value |
| BookingPage.ClearErrors | src/pages/book/index.tsx:44-45 | definition: the order-keeping filter of the errors; the lemmas below characterise it |
| BookingPage.ClearErrorsSpec | src/pages/book/index.tsx:44-45 | clearing removes exactly the errors of the named input and keeps the others |
| BookingPage.ClearErrorsAppend | src/pages/book/index.tsx:44-45 | the filter of a concatenation is the filters of the parts, in order |
| BookingPage.ClearErrorsSingle | src/pages/book/index.tsx:44-45 | one error is kept exactly when it belongs to another input; with `ClearErrorsAppend` this fixes the order and copies of what is kept |
| BookingPage.ClearErrorsIdempotent | src/pages/book/index.tsx:44-45 | a list with no error of the input passes unchanged, so clearing twice is clearing once |
| BookingPage.ClearErrorsOfUncheckedField | src/pages/book/index.tsx:44-45 | a name no check reports never loses an error |
| BookingPage.EditingUncheckedInputKeepsErrors | src/pages/book/index.tsx:35-46 | typing in the date, time, location, document or notes input never clears a validation error |
| BookingPage.ToRequest | src/pages/book/index.tsx:53-63 | the validated and submitted data carries the name, e-mail, phone, service type and terms as typed, the date and the time joined by `T`, and the optional inputs |
| BookingPage.Page.constructor | src/pages/book/index.tsx:19-33 | the page starts with the empty form (service type `notary`), no errors, not loading, no success |
| BookingPage.Page.HandleChange | src/pages/book/index.tsx:35-46 | the form takes the update, and the errors lose exactly those of the changed input |
| BookingPage.Page.DismissSuccess | src/pages/book/index.tsx:125 | the "Book Another Appointment" button hides the confirmation and changes nothing else |
| BookingPage.Page.HandleSubmit | src/pages/book/index.tsx:48-109 | an invalid form shows exactly its validation errors and submits nothing; a valid one posts the formatted notary payload of the form, saves that payload under the clock key when the post fails, and on success shows the confirmation and empties the form; a hung save leaves the page loading |
| ClientPortal.Portal.constructor | src/pages/client-portal/index.tsx:22-26 | the portal starts signed out, on the appointments tab, with empty fields |
| ClientPortal.Portal.SetLoginEmail | src/pages/client-portal/index.tsx:144 | the e-mail input changes only the e-mail |
| ClientPortal.Portal.SetLoginPassword | src/pages/client-portal/index.tsx:155 | the password input changes only the password |
| ClientPortal.Portal.HandleLogin | src/pages/client-portal/index.tsx:64-79 | signs in exactly when the e-mail is non-empty and the password has at least six characters, clearing the fields; otherwise leaves the fields and sets the matching error |
| ClientPortal.Portal.HandleLogout | src/pages/client-portal/index.tsx:81-85 | signs out and clears both fields, leaving the error message as it was |
| ClientPortal.Portal.SetActiveTab | src/pages/client-portal/index.tsx:213 | a tab button changes only the active tab |
| ClientPortal.LoginAccepted | src/pages/client-portal/index.tsx:71 | definition: the demo condition, a non-empty e-mail and a password of at least six characters; `LoginError` and `HandleLogin` use it |
| ClientPortal.LoginError | src/pages/client-portal/index.tsx:64-79 | no message exactly when the sign-in is accepted; "Please enter email and password" exactly when a field is empty; "Invalid credentials" exactly for a non-empty password shorter than six |
| ClientPortal.StatusColor | src/pages/client-portal/index.tsx:87-100 | the grey badge is given exactly to statuses other than the four known ones |
| ClientPortal.StatusIcon | src/pages/client-portal/index.tsx:102-115 | the bullet icon is given exactly to statuses other than the four known ones |
| ClientPortal.StatusBadgesDistinct | src/pages/client-portal/index.tsx:87-115 | the four known statuses get four different colours and four different icons |

## Left out

- Strings are sequences of characters. JavaScript measures `length` in UTF-16 code units;
  the difference matters only for characters outside the Basic Multilingual Plane.
- `JSON.stringify` of the payload is not modelled. `JSON.parse` of the response body is
  a parameter that yields a body with or without an `id`, or fails.
- URL parsing is not modelled: a request's URL is given as origin, path and query.
- Concurrency and promise ordering are not modelled. Each event handler runs to
  completion, and an un-awaited `cache.put` takes effect before the handler returns.
- Storage failures of the Cache API (a quota error, say) are not modelled: `caches.open`,
  `cache.put` and `caches.delete` always complete. The refusals `cache.put` makes by rule
  (a request that is not GET, a 206 response) are modelled. An `indexedDB.open` error is
  not modelled either. In the sync, only the replayed `fetch` can fail; a
  failing `delete` request is not modelled.
- `PendingStore.Database.GetAll`: the records come back in an unspecified order, not in
  key order as IndexedDB returns them. Nothing in the sync depends on the order.
- `console` logging, `self.skipWaiting()` and `self.clients.claim()` have no state the
  model observes.
- The request's `Vary` header and other cache-matching options are not modelled:
  `caches.match` matches on method and URL.
- The worker also intercepts the page's own `POST` to the API; that post is modelled
  directly as the `post` parameter of `FormSubmission.SubmitRequestForm`.
- The worker's request log holds each request's method and URL, not its body. Which
  record a replay posted (`JSON.stringify(submission.data)`) is carried by the per-record
  `replay` parameter, and that each record is posted once rests on the count of requests
  and on `ServiceWorker.Kept`.
- The browser's own checks on the booking form (`required`, `type="email"`) are not
  modelled. `BookingPage.Page.HandleSubmit` assumes the submit event reaches the handler.
- `handleChange` writes `[name]: val` for any input name, so an unknown name would add
  a key to the form. The model's change events name only the page's ten inputs.
- The rendered markup and the static appointments and profile data of the client
  portal are not modelled.
- The other pages, the layout components and the Express server are not part of this model.
