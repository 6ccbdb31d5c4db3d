# DataVault front end: session, route guard, API gateway and grant dashboard

This is a Dafny model of the logic in the DataVault React client. The rest of
the client is rendering. The model covers four parts:

- **Route guard.** `ProtectedRoute` and the route table (`src/App.jsx`). It
  shows a loading screen and sends signed-out visitors to `/login`. A user
  whose role a page refuses is sent to `/doctor-dashboard` when a doctor
  and to `/dashboard` otherwise, so any role other than `patient` and
  `doctor` is refused there again. Otherwise the page renders.
- **Session store.** `AuthProvider` (`src/context/AuthContext.jsx`) is a class
  with a `user` slot, a `loading` flag and the browser's `localStorage`
  (module `Browser`).
  - Start-up restores the user when both `token` and `user` are stored.
  - `login` takes the doctor branch or the patient branch. It stores the
    token and the user, with the role forced onto the user, and turns any
    failure into `{ success: false, error }`.
  - `logout` clears both items.
- **API gateway** (`src/services/api.js`):
  - the headers every request carries, following the Bearer scheme of
    section 2.1 of RFC 6750;
  - how a failed call becomes one error: the `details` items joined with
    `", "`, then `error`, then `details`, then a fixed fallback. Converting
    an object with its own `toString` to text throws a `TypeError` instead;
  - the rewrite of network `TypeError`s into a "backend not running" error;
  - the requests the endpoints build;
  - `auth.logout`.
- **Patient dashboard** (`src/pages/PatientDashboard.jsx`):
  - the minutes left on a grant, its `Xm left`/`Expired` label and its
    under-an-hour warning;
  - the duration and purpose choices;
  - the page state around granting, loading and revoking access.

Some of JavaScript's own behaviour is modelled where the client depends on it:

- `includes`, `join`, decimal printing and `parseInt` (module `Text`). The
  client never calls `split`; `Text.Split` is there only as the inverse that
  shows what a `join` produced;
- property reads, truthiness and `String(...)` (module `JsValue`);
- object spread and property assignment (module `PlainObjects`). A user
  object is a list of string properties there, and `PlainObjects.AsJson`
  turns it into the JSON value `response.json()` would give, with reads
  agreeing in both forms;
- the JSON text of a flat object of strings, with `JSON.stringify` and the
  matching part of `JSON.parse` (module `PlainObjects`), proved to round-trip.

These are what connect a login to the next start-up.

Two call sites in the dashboard disagree with the API module. They are
modelled as the code is written:

- **`loadActiveKeys`** calls `api.access.getActiveKeys`, but `api.access` only
  has `grant`, `revoke`, `checkValidity` and `getActiveAccesses`. The call
  throws, the page catches it, and the list of grants never changes
  (`Dashboard.LoadNeverChangesKeys`).
- **`handleGrantAccess`** calls the four-parameter `grant` with three
  arguments, so everything shifts one place. The body sends the doctor's ID
  as `patientID`, the hours as `doctorID` and the purpose as `durationHours`,
  and has no `purpose` (`Dashboard.GrantAsCalled`).

The rest of the model therefore uses these behaviours as written and
corrects neither.

Inputs the model does not compute itself:

- what the backend answers, or the error it throws;
- the clock (`Date.now()`);
- whether the user accepts the confirmation dialog.

Alerts come back as outputs.

## Model

| member | source | states |
|---|---|---|
| `Routes.Guard` | src/App.jsx:15-26 | While loading it always shows the loading screen. Not loading and no user means a redirect to `/login`. A role outside `allowedRoles` means a redirect to `/doctor-dashboard` for doctors and `/dashboard` for everyone else. Otherwise the children render. |
| `Routes.RouteOf` | src/App.jsx:33-60 | Exactly the three dashboard pages are wrapped in the guard, and each is given a single role, `patient` or `doctor`. |
| `Routes.Visit` | src/App.jsx:33-60 | A page shows only on its own path. Public pages always show. Only a private page waits for the session. Every redirect goes to `/login`, `/dashboard` or `/doctor-dashboard`. |
| `Routes.ShowsIffAdmitted` | src/App.jsx:21-25 | A signed-in user sees a page exactly when it is public or its `allowedRoles` include the user's role. |
| `Routes.PrivatePaths` | src/App.jsx:33-60 | Exactly `/dashboard`, `/doctor-dashboard` and `/audit` are wrapped in the guard. |
| `Routes.RouteGates` | src/App.jsx:42-58 | `/dashboard` and `/audit` admit the role `patient` and no other; `/doctor-dashboard` admits `doctor` and no other. |
| `Routes.SignedOutGoesToLogin` | src/App.jsx:18 | A signed-out visit to a private page redirects to `/login`, and `/login` always shows. |
| `Routes.NoRedirectLoop` | src/App.jsx:22 | For the roles `patient` and `doctor`, a redirect goes to the user's own dashboard, which then shows: one redirect suffices. |
| `Routes.OtherRolesLoop` | src/App.jsx:22 | Any other role, or none, is redirected from both dashboards to `/dashboard`, which redirects to itself. |
| `Auth.AuthProvider.constructor` | src/context/AuthContext.jsx:7-8 | The session starts with no user and `loading` true. |
| `Auth.EscapedUserRestored` | src/context/AuthContext.jsx:12-17 | With token `t` and user text `{"a":"\ud83d\ude00"}` stored, start-up restores the user holding the emoji. |
| `Auth.RestoreFrom` | src/context/AuthContext.jsx:10-18 | A restored user is exactly what the stored user text parses to. An unreadable outcome means the stored text does not parse. Either outcome needs a truthy stored token. |
| `Auth.AuthProvider.Restore` | src/context/AuthContext.jsx:10-18 | A user is restored when both items are stored and the stored user reads back as JSON. With nothing to restore the user is left alone. In both cases `loading` ends false. When the stored text does not parse, the effect throws and `loading` stays as it was. |
| `Auth.RestoreNeedsBoth` | src/context/AuthContext.jsx:12-16 | Start-up leaves the user alone exactly when `token` or `user` is missing or empty. |
| `Auth.AuthProvider.Login` | src/context/AuthContext.jsx:20-45 | Sends the doctor login for the role `doctor` and the patient login otherwise. On success it stores `String(data.token)` and the normalised user as JSON, sets that same user in memory and returns success. When `data.token` is an object with its own `toString`, `setItem` throws: login returns that `TypeError`'s message and nothing is stored. When the call fails it returns `error.message` and changes nothing. `loading` is untouched. |
| `Auth.BranchRoles` | src/context/AuthContext.jsx:20-32 | Only the role `doctor` takes the doctor branch and endpoint. Every other role, including the default, takes the patient branch and ends up with role `patient`. |
| `Auth.NormalizedUser` | src/context/AuthContext.jsx:28-36 | The normalised user's `role` is the branch's role, whatever the payload says. |
| `Auth.ItemsAfterLogin` | src/context/AuthContext.jsx:26-37 | After a login the stored token is the token's text and the stored user is the user's JSON text. Every other item is kept, and no other key appears. |
| `Auth.NormalizedRole` | src/context/AuthContext.jsx:28-36 | Every payload property other than `role` is kept with its value. |
| `Auth.LoginThenRestore` | src/context/AuthContext.jsx:12-38 | After a login, start-up restores exactly the user that login kept in memory, for any token text except the empty one. |
| `Auth.LoginThenHeaders` | src/context/AuthContext.jsx:26-34 | After a login, requests carry `Bearer <token>` for the stored token text, unless that text is empty. |
| `Auth.LoginThenDashboard` | src/context/AuthContext.jsx:28-36 | A freshly signed-in doctor sent to `/dashboard` is redirected to `/doctor-dashboard`, which shows. The same holds the other way round for a patient. |
| `Auth.AuthProvider.Logout` | src/context/AuthContext.jsx:47-51 | Removes `token` and `user` from storage, and only those, and clears the in-memory user. |
| `Auth.LogoutThenNothing` | src/context/AuthContext.jsx:47-50 | After logout, start-up restores nothing and no request carries credentials. |
| `Api.GetHeaders` | src/services/api.js:10-16 | `Content-Type: application/json` is always present. `Authorization` is present exactly when the stored token is truthy, and is then `Bearer <token>`. There are no other headers and no duplicates. |
| `Api.BearerRoundTrip` | src/services/api.js:14 | The header reads back as its token under the `credentials` grammar of section 2.1 of RFC 6750 exactly when the token is a `b64token`. |
| `Api.AuthorizationNeverEmpty` | src/services/api.js:11-14 | An `Authorization` header is only built from a stored, non-empty token. |
| `Api.FetchCallOf` | src/services/api.js:24-27 | `fetch` gets the API base URL plus the path, keeps the caller's method and body, and gets the computed headers. |
| `Api.CallerHeadersIgnored` | src/services/api.js:24-27 | Headers a caller passes never reach `fetch`. |
| `Api.DetailText` | src/services/api.js:35 | Rendering a `details` item throws a `TypeError` for a `null` item. For an object item it throws exactly when its `field` or `message` is an object with its own `toString`, or an array holding one. Any other item renders as `undefined: undefined`. |
| `Api.DetailTexts` | src/services/api.js:35 | Mapping the items succeeds exactly when every item renders. It then gives one text per item, in order. Otherwise it throws a `TypeError`. |
| `Api.DetailTextsFirstError` | src/services/api.js:35 | When the mapping throws, its error is that of the first item that fails: every item before that one renders. |
| `Api.DetailsMessage` | src/services/api.js:32-36 | A non-ok response whose `details` is an array of objects whose fields convert to text fails with `field: message` for each item, in order, joined by `, `. |
| `Api.DetailsThrow` | src/services/api.js:32-36 | When a `details` item throws, the call fails with the first failing item's error, passed through the `catch` block. It does not fail with a joined message. |
| `Api.OwnToStringThrows` | src/services/api.js:35-47 | For the body `{"details":[{"field":{"toString":"x"},"message":"m"}]}` the call throws `TypeError: Cannot convert object to primitive value`. |
| `Api.NoPrimitiveKept` | src/services/api.js:44-47 | The conversion's `TypeError` does not mention `fetch`, so the `catch` block rethrows it unchanged. |
| `Api.ChosenErrorKept` | src/services/api.js:38-47 | Whatever error the fallback chain builds, a plain `Error` or the conversion's `TypeError`, the `catch` block rethrows it unchanged. |
| `Api.DetailsMessageSplits` | src/services/api.js:35 | When no item contains a comma, splitting that message on `, ` gives back the items. |
| `Api.ChosenError` | src/services/api.js:38 | The error is either a plain `Error` or the `TypeError` thrown when the chosen value does not convert to text. |
| `Api.NewError` | src/services/api.js:38 | `new Error(x)` carries `x`'s text as its message, or throws what converting `x` throws. |
| `Api.FallbackMessageOrder` | src/services/api.js:38 | Without a `details` array the error is built from the first truthy of `data.error` and `data.details`, and otherwise from `API request failed`. When the chosen value is an object with its own `toString`, the conversion's `TypeError` is thrown instead. |
| `Api.FailureError` | src/services/api.js:32-38 | A non-ok response always fails with an `Error` or a `TypeError`. A `null` body gives a `TypeError`. |
| `Api.TryCall` | src/services/api.js:20-41 | The `try` block yields a value exactly for an ok response whose body parses, and that value is the body. A rejected `fetch` or an unreadable body passes its error on unchanged. |
| `Api.Rethrow` | src/services/api.js:42-48 | The `catch` block either rethrows the error or replaces it with the backend-not-running error. What it throws is never a fetch failure, so a second pass changes nothing. |
| `Api.ApiCall` | src/services/api.js:19-49 | A value comes only from an ok response carrying it. No error that leaves `apiCall` looks like a fetch failure. |
| `Api.ApiCallSucceeds` | src/services/api.js:29-41 | The call returns a value exactly for an ok response whose body parses, and it returns that body unchanged. |
| `Api.RethrowSpec` | src/services/api.js:42-48 | A `TypeError` whose message contains `fetch` anywhere is replaced by the backend-not-running error. Every other error is rethrown unchanged. |
| `Api.BrowserNetworkFailures` | src/services/api.js:44-45 | The network failure messages of Chromium and Firefox are both rewritten to the backend-not-running error. |
| `Api.LoginPatient` | src/services/api.js:56-61 | A POST whose body holds the patient ID under `patientId` and the password under `password`. |
| `Api.LoginDoctor` | src/services/api.js:63-68 | A POST whose body holds the doctor ID under `doctorId` and the password under `password`. |
| `Api.Defined` | src/services/api.js:131-136 | `JSON.stringify` keeps a property exactly when its value is not `undefined`, with that value. |
| `Api.DefinedAppend` | src/services/api.js:131-136 | Leaving out `undefined` properties works piece by piece, so the kept properties stay in their written order. |
| `Api.Grant` | src/services/api.js:128-137 | The grant request with its four arguments as body properties, an `undefined` argument left out; `Api.GrantBody` states the body for four arguments. |
| `Api.GrantBody` | src/services/api.js:128-137 | With all four arguments, the grant body is exactly `patientID`, `doctorID`, `durationHours`, `purpose`, taken from the arguments in order. |
| `Api.Revoke` | src/services/api.js:140-145 | A POST to `/access/revoke` whose body reads back the key as given. An `undefined` key gives the body `{}`. |
| `Api.CheckValidity` | src/services/api.js:147-151 | A GET under `/access/check/` exactly when the key converts to text; otherwise the conversion's `TypeError`. An `undefined` key asks for `/access/check/undefined`. |
| `Api.GetActiveAccesses` | src/services/api.js:153-157 | A GET under `/access/patient/` exactly when the ID converts to text; otherwise the conversion's `TypeError`. An `undefined` ID asks for `/access/patient/undefined`. |
| `Api.CallAccess` | src/services/api.js:127-158 | A call succeeds exactly for the methods `grant`, `revoke`, `checkValidity` and `getActiveAccesses`, provided the path argument of the last two converts to text. Any other call throws a `TypeError`. |
| `Api.ClearSession` | src/services/api.js:70-73 | Clearing the session drops `token` and `user` and keeps every other item. |
| `Api.AuthLogout` | src/services/api.js:70-73 | `auth.logout` leaves storage exactly as `ClearSession` describes. |
| `Api.ClearSessionIdempotent` | src/services/api.js:70-73 | Logging out twice is the same as logging out once. |
| `Api.NoCredentialsAfterLogout` | src/services/api.js:10-16 | Once the session is cleared, no `Authorization` header is built. |
| `Dashboard.MinutesLeft` | src/pages/PatientDashboard.jsx:219 | The value is the whole number of minutes `m` with `m*60000 <= expiry - now < (m+1)*60000`, i.e. the floor. It is `NaN` exactly when the expiry converts to `NaN`. |
| `Dashboard.Label` | src/pages/PatientDashboard.jsx:245 | The label is a countdown exactly for a positive number of minutes, and `parseInt` reads that number back from it. |
| `Dashboard.Warning` | src/pages/PatientDashboard.jsx:243 | Every `Expired` countdown gets the danger colour. `NaN` never does. |
| `Dashboard.CountdownShown` | src/pages/PatientDashboard.jsx:245 | The label is a countdown exactly when at least 60000 ms are left. It then shows a number of at least one, which `parseInt` reads back as the minutes left. |
| `Dashboard.WarningWithinTheHour` | src/pages/PatientDashboard.jsx:243 | The danger colour is used exactly when less than 3600000 ms are left, and every expired grant gets it. |
| `Dashboard.NotANumber` | src/pages/PatientDashboard.jsx:243-245 | A grant whose expiry converts to `NaN` reads `Expired` but does not get the danger colour. |
| `Dashboard.MinutesLeftMonotone` | src/pages/PatientDashboard.jsx:219 | As the clock advances, the minutes left never grow. |
| `Dashboard.DurationChoices` | src/pages/PatientDashboard.jsx:160-163 | The default `24` is one of the choices, and each choice parses to a positive number of hours: 1, 6, 24 and 168 (a week). |
| `Dashboard.PurposeChoices` | src/pages/PatientDashboard.jsx:173-176 | The four purposes are distinct, and the default is the first of them. |
| `Dashboard.KeysFrom` | src/pages/PatientDashboard.jsx:30 | Reading the keys throws only on a `null` response, and what it yields is always truthy. |
| `Dashboard.LoadCall` | src/pages/PatientDashboard.jsx:29 | The call `api.access.getActiveKeys(user.patientID)` always throws a `TypeError`. |
| `Dashboard.KeysFromResponse` | src/pages/PatientDashboard.jsx:30 | A response yields its `activeKeys` when that is truthy and `[]` otherwise. A `null` response throws. |
| `Dashboard.LoadNeverChangesKeys` | src/pages/PatientDashboard.jsx:27-35 | The call to the missing `getActiveKeys` always throws, so loading leaves the list as it was. |
| `Dashboard.GrantAsCalled` | src/pages/PatientDashboard.jsx:41 | With three arguments, the grant body is `patientID` = the doctor's ID, `doctorID` = the hours and `durationHours` = the purpose, and it has no `purpose`. |
| `Dashboard.PatientDashboard.constructor` | src/pages/PatientDashboard.jsx:12-18 | Initially: no grants, not loading, an empty doctor ID, duration `24` and purpose `Routine Checkup`. |
| `Dashboard.PatientDashboard.EnterDoctorID` | src/pages/PatientDashboard.jsx:146 | Typing sets the doctor ID and nothing else. |
| `Dashboard.PatientDashboard.SelectDuration` | src/pages/PatientDashboard.jsx:155-164 | Choosing a duration sets it, keeps the selects valid and changes nothing else. |
| `Dashboard.PatientDashboard.SelectPurpose` | src/pages/PatientDashboard.jsx:168-177 | Choosing a purpose sets it, keeps the selects valid and changes nothing else. |
| `Dashboard.PatientDashboard.LoadActiveKeys` | src/pages/PatientDashboard.jsx:27-35 | The list becomes what the response yields, unless something throws. As written the call always throws, so the list is unchanged and nothing else moves. |
| `Dashboard.PatientDashboard.SubmitGrant` | src/pages/PatientDashboard.jsx:37-41 | Submitting sets `loading` and sends the grant built from the three form values. The body's `doctorID` is the chosen number of hours: 1, 6, 24 or 168. |
| `Dashboard.PatientDashboard.GrantSettled` | src/pages/PatientDashboard.jsx:41-49 | On success it alerts the success text and clears the doctor ID. On failure it alerts `Error: <message>` and keeps the doctor ID. Either way `loading` ends false and the selects stay valid. |
| `Dashboard.PatientDashboard.HandleRevoke` | src/pages/PatientDashboard.jsx:52-60 | Without confirmation nothing is sent or shown. Once the user confirms, the revoke request for that key is sent, and a failure is alerted as `Error: <message>`. Page state is unchanged either way. |
| `PlainObjects.Get` | src/App.jsx:21 | A property read is `undefined` exactly when the object has no such property. Otherwise it is a value stored under that key. |
| `PlainObjects.Put` | src/context/AuthContext.jsx:28 | After assignment the key reads back the new value. A new key is appended at the end. |
| `PlainObjects.PutOthers` | src/context/AuthContext.jsx:36 | Assigning one property leaves every other property's value as it was. |
| `PlainObjects.PutKeepsPlaces` | src/context/AuthContext.jsx:28 | Overriding an existing property keeps every property in its place. |
| `PlainObjects.PutDistinct` | src/context/AuthContext.jsx:36 | Assignment keeps property names distinct. |
| `PlainObjects.ParseStringify` | src/context/AuthContext.jsx:15-29 | `JSON.parse(JSON.stringify(user))` gives back the same properties in the same order, for any object of strings. |
| `PlainObjects.Stringify` | src/context/AuthContext.jsx:29 | The stored user text is a braced object. It is never empty, so it is truthy at start-up. |
| `PlainObjects.SurrogatePairRead` | src/context/AuthContext.jsx:15 | A character above U+FFFF written as the `\uXXXX\uXXXX` escapes of its UTF-16 pair reads back as that one character. |
| `PlainObjects.ParseEscapedEmoji` | src/context/AuthContext.jsx:15 | `{"a":"\ud83d\ude00"}` reads as an object whose `a` is the one-character string U+1F600. |
| `PlainObjects.LookupAsJson` | src/context/AuthContext.jsx:28 | Reading a property of a user object gives the same answer as reading it from the user's JSON value: the string, or `undefined`. |
| `PlainObjects.Parse` | src/context/AuthContext.jsx:15 | What `JSON.parse` gives back never holds a property twice. |
| `JsValue.Member` | src/services/api.js:34 | Reading a property of `null` throws a `TypeError`. On an object it finds the first member with that name. On anything else it is `undefined`. |
| `JsValue.Show` | src/services/api.js:35-38 | `String(v)` throws exactly when an object it converts, or one inside an array it joins, has its own `toString`. The error is `TypeError: Cannot convert object to primitive value`. A string is itself, and any other object is `[object Object]`. |
| `JsValue.ShowOpt` | src/context/AuthContext.jsx:26 | A template literal or `setItem` on `undefined` gives `undefined`. For a value, it fails exactly when `String` does. |
| `JsValue.TruthyItem` | src/context/AuthContext.jsx:14 | A stored item is truthy as a storage string exactly when it is truthy as a JSON value (`null` when missing), so the two truthiness predicates agree. |
| `Text.Includes` | src/services/api.js:44 | A left-to-right scan for an occurrence; `Text.IncludesIffOccurs` states what it finds. |
| `Text.IncludesIffOccurs` | src/services/api.js:44 | `includes` finds a text exactly when it occurs at some offset. |
| `Text.Join` | src/services/api.js:35 | The items with the separator between them; `Text.SplitJoin` states that it can be undone. |
| `Text.SplitJoin` | src/services/api.js:35 | Splitting a joined list on its separator gives the list back when no item contains the separator's first character. |
| `Text.ParseInt` | src/pages/PatientDashboard.jsx:41 | A text starting with a digit parses to a non-negative number. A text starting with neither a digit nor a sign is `NaN`. |
| `Text.ParseIntOfNatText` | src/pages/PatientDashboard.jsx:41 | `parseInt` reads a printed natural number back from the front of a text, stopping at the first non-digit. |
| `Text.ParseIntOfIntToString` | src/pages/PatientDashboard.jsx:41 | `parseInt` reads back any printed integer. |

## Left out

- JSON values: user payloads are modelled as flat objects whose values are all strings. The JSON reader reads those, with every escape including UTF-16 surrogate pairs, and refuses every other value. Nested objects, numbers and booleans inside a user are not modelled.
- PlainObjects.Parse: a lone surrogate escape (`\uD800` to `\uDFFF` not written as a high half followed by a low half) is refused. `JSON.parse` accepts it and returns a string holding the lone half, which a Dafny string of Unicode scalar values cannot hold. `JSON.stringify` never writes such an escape for the client's own users.
- Auth.AuthProvider.Restore: stored user text that is valid JSON but not such an object (for instance `null`) is treated like text `JSON.parse` rejects. In the browser the effect would instead set that value as the user and stop loading. The same holds for stored text with a lone surrogate escape, which the reader refuses (see `PlainObjects.Parse`).
- Auth.AuthProvider.Login: the response body is given already read as `data.token`, `data.doctor` and `data.patient`. A body that is `null`, where reading `data.token` throws, is not modelled. A `setItem` that throws because storage is full is not modelled either. A throw from converting the token to text is modelled.
- Dashboard.MinutesLeft: time is whole milliseconds and the arithmetic is exact. Floating-point rounding of `/ 1000 / 60` for values beyond 2^53 and non-integer expiry times are not modelled. The expiry is taken after JavaScript converts `key.expiryTime` to a number, and that conversion is not modelled. `null`, `""`, `false` and `[]` convert to 0, so the grant shows `Expired` in the danger colour. A numeric string such as `"1700000000000"` converts to its value. `undefined`, other strings and objects convert to `NaN`.
- Text.ParseInt: it reads an optional sign and decimal digits. Leading white space, `0x` prefixes and other radices are not modelled; the form's values never have them.
- JsValue.Member: there is no prototype chain. On a string or an array, `length` reads as `undefined`. Names inherited from `Object.prototype` (`constructor`, `toString`, `hasOwnProperty`, `valueOf`, ...) also read as `undefined` on every value. In JavaScript all of these are defined. The client reads only `details`, `field`, `message`, `error` and `activeKeys` this way, and none of them is inherited.
- PlainObjects.Get: for the same reason, a name inherited from `Object.prototype`, such as `constructor`, reads as `undefined` on a user object. The client reads only `role` and `patientID`.
- Api.CallAccess: the names `api.access` inherits from `Object.prototype` (`toString`, `valueOf`, ...) are functions in JavaScript, so calling them does not throw. The model counts them among the missing methods. The client calls only `grant`, `revoke` and `getActiveKeys`.
- JSON numbers are integers throughout. Fractions, exponents and `-0` are not modelled. Objects keep their members in the order given. JavaScript would list integer-like keys first, in ascending order.
- Numbers print in plain decimal. Exponent notation for very large numbers is not modelled.
- Routes.RouteOf: paths match exactly. React Router's case-insensitive matching and trailing slashes are not modelled.
- Api.ParseBearer matches the scheme name `Bearer` case-sensitively. It serves only as the reference reader for the header the client writes.
- `fetch`, `response.json()`, `Date.now()`, `alert` and `confirm` are parameters or results, as listed above. `console` logging, including the `JSON.parse` of the request body at src/services/api.js:22, is not modelled.
- Request bodies are kept as the JSON value handed to `JSON.stringify`, not as its text.
- Error messages of `TypeError`s follow the V8 engine's wording. Other engines word them differently.
- React scheduling is not modelled: effect timing, async interleaving, and the un-awaited `loadActiveKeys()` after a grant or revoke. The `handleGrantAccess` split at its `await` is kept as `SubmitGrant` and `GrantSettled`.
- The mount effect that calls `loadActiveKeys` when `user?.patientID` is truthy (src/pages/PatientDashboard.jsx:21-25) is not modelled. `LoadActiveKeys` itself is modelled, and as written it never changes the list.
- The dashboard's fallback login form for signed-out visitors (src/pages/PatientDashboard.jsx:62-100) and all rendering, styles and icons are not modelled.
- The other endpoints (`patients.*`, `doctors.*`, `health`), the other pages and the missing `DoctorRegister` module are not part of this model.
