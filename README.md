# Company records: a verified model of the login flow, the record views and their API

The system is a small company-records application:

- An Angular client. A user signs in with a six-digit passcode. The dashboard greets them by name. It lists or searches company records (name, exchange, ticker, ISIN, website). New records are added through a validated form, and a row is edited in place.
- An Express server behind the client. It exchanges the passcode for a one-hour JSON Web Token, handed back in the `authToken` cookie. It checks that token as a bearer header (section 2.1 of RFC 6750) on every record request. It reads and writes the records in PostgreSQL.

This Dafny project models both halves and proves what each handler, service and component does.

**Server.**
- `Express` models the response. Every `res.status(..).json(..)` call is recorded, but only the first reaches the client; later writes throw `ERR_HTTP_HEADERS_SENT`.
- `RequestVerifier` models `verifyToken` and the try/catch shape every protected handler shares.
- `AutoLogin`, `FetchController`, `SearchController`, `CreateController`, `UpdateController` and `AuthController` each give:
  - a decision table, as a pure function from request, token verification and database answers to the replies attempted and the error that escapes;
  - an imperative handler proved equal to that table;
  - the statements the handler sends to the database.
- Token signing and verification (`Jwt`), the database (`Postgres`) and the clock are oracles passed in as parameters. Of signing, the model keeps the claims set that is signed, with `iat` and `exp` (sections 4.1.6 and 4.1.4 of RFC 7519).

**Client.**
- `Browser` models session storage, the cookie jar and the router as classes, which the services update.
- `HttpClient` turns the server's delivered reply into the success or error the client observes.
- The services (`AuthState`, `AuthService`, `AuthGuard`, `CompanyRecordsService`) are modelled as classes.
  - Their requests are values.
  - The server is a function from request to result.
- The components (`Dashboard`, `LoginComponent`, `CreateComponent`, `SearchComponent`) are classes whose methods change their fields.
- `RecordForms` models the reactive forms shared by the create and search views:
  - the validators in the order they are attached;
  - the error objects, and how they merge;
  - form validity and the error messages.
- `Session` connects client and server. It proves end-to-end facts: a session check succeeds exactly when the server verifies the token; a login hands the user's name through; a form the client accepts passes the server's required-field check.

## Model

| member | source | states |
|---|---|---|
| Strings.Split | backend/middlewares/requestVerifier.js:10 | `split(' ')` yields at least one piece, none contains the separator, and joining the pieces with it gives back the string |
| Strings.TakeUntil | backend/middlewares/requestVerifier.js:10 | the piece before the first separator is a prefix free of it, followed by the separator or the end |
| Strings.SplitAfterSeparator | backend/middlewares/requestVerifier.js:10 | a separator-free prefix and a separator split off as exactly one first piece |
| Strings.SplitFirstPiece | backend/middlewares/requestVerifier.js:10 | the first piece of a split is everything before the first separator |
| Strings.TakeUntilWhole | backend/middlewares/requestVerifier.js:10 | nothing is cut off if and only if the separator does not occur |
| Strings.ConcatSingles | frontend/src/app/login/login.component.ts:68 | `join('')` of one-character values has one character per value, in order |
| Strings.TrimEmpty | frontend/src/app/login/login.component.ts:48 | `trim() === ''` holds exactly when every character is JavaScript white space or a line terminator |
| Strings.TrimStartEmpty | frontend/src/app/login/login.component.ts:48 | trimming the start empties a string exactly when it is all blank, and otherwise leaves a non-blank first character |
| Strings.TrimEndKeepsNonBlankHead | frontend/src/app/login/login.component.ts:48 | trimming the end never empties a string whose first character is not blank |
| Strings.ToLower | frontend/src/app/dashboard/search/search.component.ts:111 | `toLowerCase` keeps the length and lowers each Latin capital in place |
| Strings.AllInAnyCase | frontend/src/app/dashboard/search/search.component.ts:111 | a query lowercases to `all` exactly when it is three letters a, l, l in any mix of cases |
| Strings.NatToString | frontend/src/app/dashboard/create/create.component.ts:96-97 | a number in a template literal renders as a non-empty string of decimal digits |
| Json.Member | backend/controllers/company-records/createController.js:10 | destructuring a body member gives a value exactly when the body is an object that has that key |
| Json.ObjOf | backend/controllers/auth/authController.js:33 | an object literal with `undefined` members serialises to an object holding only the members that are present |
| Express.DeliveredOf | backend/controllers/auth/autoLogin.js:8-9 | the client receives a reply exactly when one was written, and it is the first one |
| Express.Response.Json | backend/middlewares/requestVerifier.js:7 | `status().json()` records the reply; it throws the headers-sent error exactly when a reply went out before |
| Express.Response.Cookie | backend/controllers/auth/authController.js:25-31 | `res.cookie` adds the cookie before the reply, and throws and adds nothing after it |
| Postgres.DbResult.Error | backend/controllers/company-records/createController.js:32 | a failed query throws an error carrying its code, never a JsonWebTokenError |
| Postgres.Param | backend/controllers/company-records/updateController.js:23 | an `undefined` parameter is sent as SQL NULL, any other value as itself |
| Postgres.Pool.Connect | backend/controllers/auth/authController.js:13 | `pool.connect()` throws the given failure or checks out one more client, and sends no statement |
| Postgres.Pool.Release | backend/controllers/auth/authController.js:34-36 | `client.release()` gives one client back and sends no statement |
| Postgres.Pool.Run | backend/controllers/company-records/fetchController.js:10 | a query is appended to the statements sent, and its answer is the database's answer to it |
| Jwt.SignedClaims | backend/controllers/auth/authController.js:23 | the signed claims are the payload plus `iat`, the current time in whole seconds, and `exp`, exactly one hour later |
| ErrorHandlers.HandleError | backend/middlewares/errorHandlers.js:1-4 | any error yields a 500 with the generic body; the write throws if a reply was already sent |
| ErrorHandlers.NotFoundHandler | backend/middlewares/errorHandlers.js:6-8 | any unrouted request yields a 404 `Not found` |
| RequestVerifier.BearerToken | backend/middlewares/requestVerifier.js:10 | `split(' ')[1]` of a `Bearer ` header is what follows the prefix up to the next space, and holds no space |
| RequestVerifier.HasBearer | backend/middlewares/requestVerifier.js:6 | the header passes the check exactly when it is present, non-empty and starts with `Bearer ` |
| RequestVerifier.TokenError | backend/middlewares/requestVerifier.js:10 | with a bearer header, the error verifying its token throws, if any |
| RequestVerifier.WorkRuns | backend/middlewares/requestVerifier.js:6-10 | the handler's own work runs when the check wrote 403 and returned, or when the token verified |
| RequestVerifier.BearerFields | backend/middlewares/requestVerifier.js:10 | a `Bearer ` header always has a second piece, so the index never reads `undefined` |
| RequestVerifier.BearerHeader | frontend/src/app/services/company-records/company-records.service.ts:46 | the client's header for a token always starts with `Bearer ` |
| RequestVerifier.BearerRoundTrip | backend/middlewares/requestVerifier.js:6-10 | the client's header always passes the check, and the server reads back exactly the client's token if and only if the token has no space |
| RequestVerifier.VerifyError | backend/middlewares/requestVerifier.js:10 | verification throws nothing exactly for a valid token, and a JsonWebTokenError for an invalid one |
| RequestVerifier.VerifyToken | backend/middlewares/requestVerifier.js:4-11 | a missing, empty or non-`Bearer ` header writes 403 and returns normally; otherwise nothing is written and the verification error, if any, is thrown |
| RequestVerifier.CatchPlain | backend/controllers/auth/autoLogin.js:10-17 | the catch block answers 401 for a JsonWebTokenError and 500 for anything else |
| RequestVerifier.CatchUnique | backend/controllers/company-records/createController.js:27-37 | the catch block answers 401 for a JsonWebTokenError, 409 for SQLSTATE 23505 and 500 otherwise |
| RequestVerifier.Guarded | backend/middlewares/requestVerifier.js:4-11 | a protected handler without a bearer header sends 403, still runs its work, and its later writes throw and escape; with one, it sends exactly one reply: the work's own if the token verifies, the catch block's otherwise |
| RequestVerifier.CatchPlainBlock | backend/controllers/company-records/fetchController.js:13-18 | the imperative catch block writes the reply `CatchPlain` chooses, and throws if a reply went out before |
| RequestVerifier.CatchUniqueBlock | backend/controllers/company-records/updateController.js:32-42 | the imperative catch block writes the reply `CatchUnique` chooses, and throws if a reply went out before |
| AutoLogin.AutoLoginOutcome | backend/controllers/auth/autoLogin.js:6-18 | a valid token yields 200 `Token is valid`, an invalid one 401, any other failure 500; without a bearer header 403 goes out and the two writes after it throw |
| AutoLogin.AutoLogin | backend/controllers/auth/autoLogin.js:6-18 | the handler writes exactly the decision table's replies and lets escape exactly its error |
| FetchController.FetchWork | backend/controllers/company-records/fetchController.js:9-12 | the select's rows are answered with 200; a failed select throws its error |
| FetchController.FetchOutcome | backend/controllers/company-records/fetchController.js:6-19 | with a valid token, the rows answer 200 and a database failure 500; an invalid token gives 401; no bearer header gives 403 followed by writes that throw |
| FetchController.FetchQueries | backend/controllers/company-records/fetchController.js:8-10 | the select is sent exactly when the work runs, even after a 403 |
| FetchController.FetchRecord | backend/controllers/company-records/fetchController.js:6-19 | the handler writes the table's replies, sends the table's queries and checks out no client |
| SearchController.SearchTerm | backend/controllers/company-records/searchController.js:11 | the term is the query's template-literal rendering wrapped in `%`, with no escaping |
| SearchController.SearchQuery | backend/controllers/company-records/searchController.js:10-12 | the search sends the single term as its only parameter |
| SearchController.SearchWork | backend/controllers/company-records/searchController.js:10-14 | the search's rows are answered with 200; a failed search throws its error |
| SearchController.SearchOutcome | backend/controllers/company-records/searchController.js:6-23 | the same status table as fetch, over the search's rows |
| SearchController.SearchQueries | backend/controllers/company-records/searchController.js:8-12 | the search is sent exactly when the work runs |
| SearchController.SearchRecord | backend/controllers/company-records/searchController.js:6-23 | the handler writes the table's replies and sends the table's queries |
| CreateController.RequiredPresent | backend/controllers/company-records/createController.js:12 | the body passes the required-field check exactly when name, exchange, ticker and ISIN are all truthy |
| CreateController.InsertQuery | backend/controllers/company-records/createController.js:16-24 | the insert's parameters are name, exchange, ticker and ISIN as given, then website, or NULL when it is falsy |
| CreateController.CreateWork | backend/controllers/company-records/createController.js:10-26 | without a required field the work answers 400; an insert that succeeds 201; a failed insert throws its error |
| CreateController.CreateOutcome | backend/controllers/company-records/createController.js:6-38 | with a valid token: 400 when a required field is falsy, 201 on insert, 409 on a duplicate ISIN, else 500; 401 for an invalid token; 403 first without a bearer header |
| CreateController.CreateQueries | backend/controllers/company-records/createController.js:8-24 | the insert is sent if and only if the work runs and all four required fields are truthy |
| CreateController.CreateRecord | backend/controllers/company-records/createController.js:6-38 | the handler writes the table's replies and sends the table's queries |
| UpdateController.UpdateQuery | backend/controllers/company-records/updateController.js:10-25 | the update's six parameters are name, exchange, ticker, ISIN, website and id, unchecked, with NULL for absent ones |
| UpdateController.UpdateWork | backend/controllers/company-records/updateController.js:25-31 | no updated row answers 404, otherwise the first returned row with 200; a failed update throws its error |
| UpdateController.UpdateOutcome | backend/controllers/company-records/updateController.js:6-43 | with a valid token: 404 when no row changed, 200 with the first returned row, 409 on a duplicate ISIN, else 500; 401 for an invalid token; 403 first without a bearer header |
| UpdateController.UpdateQueries | backend/controllers/company-records/updateController.js:8-25 | the update is sent exactly when the work runs |
| UpdateController.UpdateRecord | backend/controllers/company-records/updateController.js:6-43 | the handler writes the table's replies and sends the table's queries |
| AuthController.KeyWellFormed | backend/controllers/auth/authController.js:8 | the key passes exactly when it is a truthy string, that is a non-empty string |
| AuthController.LookupQuery | backend/controllers/auth/authController.js:16 | the lookup of the user whose key is the given key, as the only parameter |
| AuthController.Payload | backend/controllers/auth/authController.js:22-23 | the token payload holds the user's id and nothing else |
| AuthController.NameBody | backend/controllers/auth/authController.js:33 | the 200 body holds the user's name and nothing else |
| AuthController.AuthOutcome | backend/controllers/auth/authController.js:5-40 | a missing or non-string key gives 400 with no query; a connect failure 500 with no query; a failed lookup 500; an unknown key exactly 401; a found user whose token fails to sign 500; a found user with a signed token 200 with the name and the session cookie; the cookie is set exactly with a 200 |
| AuthController.Auth | backend/controllers/auth/authController.js:5-40 | the handler writes the table's replies, cookies and queries, never lets an error escape, and gives every client back to the pool |
| HttpClient.Received | frontend/src/app/services/auth/auth.service.ts:40-43 | the client sees success, with the reply's body, exactly for a delivered 2xx reply; otherwise an error |
| Browser.CookieJar.Get | frontend/src/app/services/auth/auth.service.ts:28 | a cookie's value, or the empty string when the cookie is absent |
| Browser.CookieJar.Delete | frontend/src/app/services/auth/auth.service.ts:47 | deleting removes exactly that cookie |
| Browser.Router.Navigate | frontend/src/app/services/auth/auth.service.ts:48 | a navigation is appended to those requested |
| AuthState.AuthStateService.GetName | frontend/src/app/services/auth/auth-state.service.ts:15-18 | the stored name, or `Default User` when none is stored |
| AuthState.AuthStateService.SetName | frontend/src/app/services/auth/auth-state.service.ts:11-13 | the next read returns the name set, and no other entry changes |
| AuthState.AuthStateService.ClearName | frontend/src/app/services/auth/auth-state.service.ts:20-22 | the entry is removed, so the next read returns the default |
| AuthService.Authenticate | frontend/src/app/services/auth/auth.service.ts:23-25 | login POSTs `{key}` to the auth endpoint with credentials and no bearer header |
| AuthService.AutoLoginCall | frontend/src/app/services/auth/auth.service.ts:27-39 | no request is made exactly when the cookie is empty; otherwise a GET to auto-login with `Bearer <token>` and credentials |
| AuthService.Confirms | frontend/src/app/services/auth/auth.service.ts:41-42 | a reply confirms the session exactly when it is a success whose `message` is `Token is valid`; any error counts as no |
| AuthService.IsAuthenticated | frontend/src/app/services/auth/auth.service.ts:27-44 | false without a token, whatever the server would say; otherwise true exactly when the reply is a success whose message is `Token is valid` |
| AuthService.AuthService.Authenticated | frontend/src/app/services/auth/auth.service.ts:27-44 | without an `authToken` cookie the session check is false |
| AuthService.AuthService.Logout | frontend/src/app/services/auth/auth.service.ts:46-49 | exactly the token cookie is deleted, then one navigation to `/login` |
| AuthGuard.Decide | frontend/src/app/services/guards/auth-guard.service.ts:27-32 | the guard allows exactly when the user is authenticated, and otherwise redirects to `/login` |
| AuthGuard.AuthGuardService.CheckAuthentication | frontend/src/app/services/guards/auth-guard.service.ts:25-34 | the answer is the session check's; a failed check adds exactly one navigation to `/login`, a passed one none |
| AuthGuard.AuthGuardService.CanLoad | frontend/src/app/services/guards/auth-guard.service.ts:17-19 | loading asks the same question as activation, with the same redirect |
| AuthGuard.AuthGuardService.CanActivate | frontend/src/app/services/guards/auth-guard.service.ts:21-23 | activation asks the session check afresh, with the same redirect |
| CompanyRecordsService.AuthHeader | frontend/src/app/services/company-records/company-records.service.ts:39-47 | an empty token throws `No authentication token found`; otherwise the header is `Bearer <token>` |
| CompanyRecordsService.WithHeader | frontend/src/app/services/company-records/company-records.service.ts:23-25 | a record request throws before it is built exactly when there is no token; otherwise it carries the header and no credentials |
| CompanyRecordsService.CompanyRecordsService.GetAuthToken | frontend/src/app/services/company-records/company-records.service.ts:39-47 | throws exactly when the `authToken` cookie is absent or empty |
| CompanyRecordsService.CompanyRecordsService.Create | frontend/src/app/services/company-records/company-records.service.ts:23-25 | POSTs the record unchanged to the create endpoint, or throws when there is no token |
| CompanyRecordsService.CompanyRecordsService.Fetch | frontend/src/app/services/company-records/company-records.service.ts:27-29 | GETs the fetch endpoint with no body, or throws when there is no token |
| CompanyRecordsService.CompanyRecordsService.Search | frontend/src/app/services/company-records/company-records.service.ts:31-33 | POSTs `{query}` to the search endpoint, or throws when there is no token |
| CompanyRecordsService.CompanyRecordsService.Update | frontend/src/app/services/company-records/company-records.service.ts:35-37 | POSTs the record unchanged to the update endpoint, or throws when there is no token |
| Dashboard.Greeting | frontend/src/app/dashboard/dashboard.component.ts:22-34 | Morning before 12, Afternoon from 12 to 17, Evening from 18, each followed by the name |
| Dashboard.DashboardComponent.constructor | frontend/src/app/dashboard/dashboard.component.ts:12-18 | the dashboard starts on the search view with an empty search value |
| Dashboard.DashboardComponent.GetGreetings | frontend/src/app/dashboard/dashboard.component.ts:22-34 | the greeting for the hour, addressed to the stored name or the default |
| Dashboard.DashboardComponent.ToggleView | frontend/src/app/dashboard/dashboard.component.ts:36-38 | only the current view changes |
| Dashboard.DashboardComponent.EmitValueToSearch | frontend/src/app/dashboard/dashboard.component.ts:45-47 | only the search value changes |
| Dashboard.DashboardComponent.Logout | frontend/src/app/dashboard/dashboard.component.ts:40-43 | the token cookie and the stored name are removed, the router goes to `/login`, and the greeting falls back to `Default User` |
| CompanyRecord.RecordFields | frontend/src/app/models/company-records.model.ts:1-9 | a record as an object has its five required members and exactly those optional members it holds |
| RecordForms.IsEmptyInput | frontend/src/app/dashboard/create/create.component.ts:28 | `Validators.required` rejects exactly null, the empty string and the empty array |
| RecordForms.LengthOf | frontend/src/app/dashboard/create/create.component.ts:29 | only strings and arrays have the length `maxLength` checks |
| RecordForms.IsinShape | frontend/src/app/dashboard/create/create.component.ts:65-71 | the ISIN pattern: exactly twelve characters, two capitals followed by ten capitals or digits |
| RecordForms.WebsiteShape | frontend/src/app/dashboard/create/create.component.ts:73-84 | the website pattern: `https://`, at least one character, a dot, and at least one more, with no line terminator among them |
| RecordForms.Single | frontend/src/app/dashboard/create/create.component.ts:60 | the one-key error object holds exactly that key and value |
| RecordForms.Validate | frontend/src/app/dashboard/create/create.component.ts:65-84 | `required` fails exactly on null, `''` or `[]`; `maxLength` exactly on a longer string or array; the ISIN pattern exactly when the rendered value lacks the two-capitals-then-ten layout; the website pattern exactly on a truthy value without `https://`, text, a dot and text |
| RecordForms.Merged | frontend/src/app/dashboard/create/create.component.ts:29-31 | the error objects of a control's validators merged in order |
| RecordForms.MergedEmpty | frontend/src/app/dashboard/create/create.component.ts:27-33 | a control's merged errors are empty if and only if no validator reports |
| RecordForms.MergedKeeps | frontend/src/app/dashboard/create/create.component.ts:27-33 | any key a validator reports survives the merge |
| RecordForms.ErrorsOf | frontend/src/app/dashboard/create/create.component.ts:27-33 | a control's errors are null exactly when every validator passes, and otherwise the non-empty merge |
| RecordForms.Rules | frontend/src/app/dashboard/create/create.component.ts:26-34 | every control but the website is required first; the limits are exchange 50 on create and 10 on a row, ticker 10 and ISIN 12; the ISIN is then checked against its pattern; the website has only its pattern |
| RecordForms.Validated | frontend/src/app/dashboard/search/search.component.ts:39-47 | a control keeps its value, and has no errors exactly when all its field's validators pass |
| RecordForms.Pick | frontend/src/app/dashboard/search/search.component.ts:63 | a control seeded from an object takes that member, or null when the object lacks it |
| RecordForms.Form.Get | frontend/src/app/dashboard/create/create.component.ts:36-40 | a control has the form's value; its errors are the validators' verdict unless errors were set on the ISIN by hand |
| RecordForms.Build | frontend/src/app/dashboard/search/search.component.ts:39-47 | building or resetting seeds each control from its own member, ISIN from the given key, and drops hand-set errors |
| RecordForms.FormValue | frontend/src/app/dashboard/create/create.component.ts:44 | the form value has exactly the keys name, exchange, ticker, ISIN and website, holding the controls' values |
| RecordForms.FormValid | frontend/src/app/dashboard/create/create.component.ts:43 | the form is valid exactly when none of its five controls has errors |
| RecordForms.SetIsinErrors | frontend/src/app/dashboard/create/create.component.ts:60 | `setErrors` replaces only the ISIN control's errors; the value and the other controls stay as they were |
| RecordForms.TextAccepted | frontend/src/app/dashboard/create/create.component.ts:27-33 | the text each field accepts: non-empty name; non-empty exchange and ticker within their limits; an ISIN of the ISIN shape; an empty or shaped website |
| RecordForms.TextControlValid | frontend/src/app/dashboard/create/create.component.ts:27-33 | a text control is valid if and only if its value meets its field's stated rules |
| RecordForms.TextFormValid | frontend/src/app/dashboard/create/create.component.ts:43 | a text form is valid if and only if name, exchange and ticker are non-empty and within 50 (create) or 10 (row) and 10, the ISIN has its shape, and the website is empty or shaped |
| RecordForms.ErrorMessage | frontend/src/app/dashboard/create/create.component.ts:86-113 | no message exactly without a control or errors; otherwise the first present of `required` (naming the field), `maxlength` (naming the limit), `isinInvalid`, `isinNotUnique` and `websiteInvalid` decides the text, and `Invalid input` when none is |
| RecordForms.MessageOfValidated | frontend/src/app/dashboard/create/create.component.ts:86-92 | a freshly validated control shows a message exactly when it is invalid; an empty required control asks for its field |
| RecordForms.EmptyIsinMessage | frontend/src/app/dashboard/create/create.component.ts:91-92 | an empty ISIN control is invalid and shows `ISIN is required.` |
| RecordForms.TooLongMessage | frontend/src/app/dashboard/create/create.component.ts:95-98 | an exchange, ticker or ISIN longer than its limit shows `<field> Exceeded <limit> characters.`; for an ISIN this wins over the pattern error |
| RecordForms.InvalidIsinMessage | frontend/src/app/dashboard/create/create.component.ts:100-102 | a non-empty ISIN within twelve characters but without the ISIN shape shows `ISIN must start with 2 capitalised letters.` |
| RecordForms.InvalidWebsiteMessage | frontend/src/app/dashboard/create/create.component.ts:108-110 | a non-empty website without the address shape shows `Website must be in this format: https://example.com` |
| RecordForms.IsinExamples | frontend/src/app/dashboard/create/create.component.ts:68 | US1234567890 has the ISIN shape; ten digits, 11 characters and 13 characters do not |
| RecordForms.WebsiteExamples | frontend/src/app/dashboard/create/create.component.ts:81 | the https addresses with a dot pass; an http address and a bare host do not |
| CreateComponent.InitialForm | frontend/src/app/dashboard/create/create.component.ts:26-34 | the form the component builds: five empty text controls of the create view |
| CreateComponent.ClearedForm | frontend/src/app/dashboard/create/create.component.ts:55 | `reset()` with no value: every control null, validated again |
| CreateComponent.DuplicateIsin | frontend/src/app/dashboard/create/create.component.ts:59-61 | the form after `setErrors({isinNotUnique: true})` on the ISIN control |
| CreateComponent.InitialFormInvalid | frontend/src/app/dashboard/create/create.component.ts:26-34 | the fresh form cannot be submitted, and its name asks to be filled in |
| CreateComponent.ClearedFormInvalid | frontend/src/app/dashboard/create/create.component.ts:53-56 | after a save every control is null; the website is valid, the form is not, and the ISIN asks to be filled in |
| CreateComponent.DuplicateIsinReported | frontend/src/app/dashboard/create/create.component.ts:58-63 | after a 409 the form is invalid, the ISIN shows `This ISIN already exists.`, and the values and other controls are unchanged |
| CreateComponent.CreateComponent.constructor | frontend/src/app/dashboard/create/create.component.ts:14-22 | the component starts with the add title and five empty text controls |
| CreateComponent.CreateComponent.HandleSuccess | frontend/src/app/dashboard/create/create.component.ts:53-56 | the saved title, and a cleared form |
| CreateComponent.CreateComponent.HandleError | frontend/src/app/dashboard/create/create.component.ts:58-63 | a 409 marks the ISIN as taken; any other status changes nothing |
| CreateComponent.CreateComponent.OnSubmit | frontend/src/app/dashboard/create/create.component.ts:42-51 | an invalid form sends nothing; a missing token throws; a success saves and clears; a failure is handled by its status |
| SearchComponent.DispatchQuery | frontend/src/app/dashboard/search/search.component.ts:108-116 | an empty query does nothing, `all` in any case lists everything, any other query is searched for as typed |
| SearchComponent.AllListsEverything | frontend/src/app/dashboard/search/search.component.ts:111 | all, ALL and All list everything; allow and al are searched for |
| SearchComponent.RowsOf | frontend/src/app/dashboard/search/search.component.ts:115 | a reply sets up rows exactly when it is an array of objects, one row per element, in order |
| SearchComponent.Listing | frontend/src/app/dashboard/search/search.component.ts:99-106 | rows are listed only from a request that was made and succeeded |
| SearchComponent.RowForm | frontend/src/app/dashboard/search/search.component.ts:39-47 | a row's edit form: each control seeded from the record's own member, ISIN from `isin`, with the row limits |
| SearchComponent.RowFields | frontend/src/app/dashboard/search/search.component.ts:50-54 | a row keeps every member of its record and is not being edited |
| SearchComponent.Assigned | frontend/src/app/dashboard/search/search.component.ts:84 | `Object.assign`: the reply's members overwrite the row's and the others stay |
| SearchComponent.UpdateBody | frontend/src/app/dashboard/search/search.component.ts:71 | the update body is the form's values plus the row's id |
| SearchComponent.CancelledForm | frontend/src/app/dashboard/search/search.component.ts:63 | the reset as written seeds the ISIN control from a member named `ISIN` |
| SearchComponent.RestoredForm | frontend/src/app/dashboard/search/search.component.ts:61-64 | the intended reset is the row form built from the row: every control from its own member, the ISIN from `isin`, with no set errors |
| SearchComponent.CancelEditEmptiesIsin | frontend/src/app/dashboard/search/search.component.ts:61-64 | as written, cancelling on a row without an `ISIN` member empties the ISIN control and invalidates the form; every other control is as intended |
| SearchComponent.RestoredFormUndoesEdits | frontend/src/app/dashboard/search/search.component.ts:61-64 | the intended reset gives a row back exactly the form it was set up with |
| SearchComponent.TestRecordForm | frontend/src/app/dashboard/search/search.component.ts:39-47 | the test record's row form holds its five text values |
| SearchComponent.TestRecordFormValid | frontend/src/app/dashboard/search/search.component.ts:66-69 | the test record's row form is valid, so the row can be saved |
| SearchComponent.CancelEditExample | frontend/src/app/dashboard/search/search.component.ts:61-64 | as written, cancelling an edit of the test record's row leaves a form that cannot be saved |
| SearchComponent.NewRows | frontend/src/app/dashboard/search/search.component.ts:50-54 | `results.map`: one new, distinct row per record, in order, each with its fields and seeded form |
| SearchComponent.SearchComponent.constructor | frontend/src/app/dashboard/search/search.component.ts:18-27 | the table starts empty with no query and no notice |
| SearchComponent.SearchComponent.SetUpForms | frontend/src/app/dashboard/search/search.component.ts:49-55 | the table becomes the new rows for the results, and nothing else changes |
| SearchComponent.SearchComponent.GetAllRecords | frontend/src/app/dashboard/search/search.component.ts:99-106 | a successful fetch replaces the table; any failure keeps it; a missing token throws |
| SearchComponent.SearchComponent.NgOnInit | frontend/src/app/dashboard/search/search.component.ts:29-31 | the first display lists every record; the query and the notice are unchanged |
| SearchComponent.SearchComponent.GetSearchedRecords | frontend/src/app/dashboard/search/search.component.ts:108-116 | the query's dispatch decides: no change, the fetch's rows, or the search's rows; a missing token throws; the query and the notice are unchanged |
| SearchComponent.SearchComponent.NgOnChanges | frontend/src/app/dashboard/search/search.component.ts:33-37 | a change of the search query acts as `getSearchedRecords` does on the dispatch of the query; any other change touches nothing; the query and the notice are unchanged |
| SearchComponent.SearchComponent.EditRow | frontend/src/app/dashboard/search/search.component.ts:57-59 | the row enters editing and its form is untouched |
| SearchComponent.SearchComponent.CancelEditAsWritten | frontend/src/app/dashboard/search/search.component.ts:61-64 | the row leaves editing and its form is reset from the row by control name |
| SearchComponent.SearchComponent.CancelEdit | frontend/src/app/dashboard/search/search.component.ts:61-64 | the row leaves editing, and every control, ISIN included, gets back the row's own value |
| SearchComponent.SearchComponent.DisplaySaveNotification | frontend/src/app/dashboard/search/search.component.ts:89-92 | the notice is shown with the given text |
| SearchComponent.SearchComponent.NotificationTimeout | frontend/src/app/dashboard/search/search.component.ts:93-95 | the timer hides the notice and keeps its text |
| SearchComponent.SearchComponent.HandleSuccessfulUpdate | frontend/src/app/dashboard/search/search.component.ts:83-87 | the reply's members go onto the row, editing ends, and `Record Updated.` is shown |
| SearchComponent.SearchComponent.HandleError | frontend/src/app/dashboard/search/search.component.ts:137-143 | a 409 shows `ISIN Already Exists.`; other statuses show nothing |
| SearchComponent.SearchComponent.SaveRow | frontend/src/app/dashboard/search/search.component.ts:66-77 | an invalid form sends nothing; a missing token throws; otherwise the form values with the row's id are posted, and the reply updates the row or shows the notice |
| LoginComponent.FocusBack | frontend/src/app/login/login.component.ts:45-52 | Backspace moves the focus back one box exactly when the focused box is blank and not the first |
| LoginComponent.FocusAfterInput | frontend/src/app/login/login.component.ts:56-61 | one character typed moves the focus to the next box, except from the last box |
| LoginComponent.FocusBackExamples | frontend/src/app/login/login.component.ts:48 | a box of spaces counts as blank; the first box and a filled box keep the focus |
| LoginComponent.PasscodeOfSingles | frontend/src/app/login/login.component.ts:68 | six one-character boxes join into a six-character passcode of those characters in order |
| LoginComponent.LoginAccepted | frontend/src/app/login/login.component.ts:74-84 | a reply logs in exactly when it is a success whose body is not `null` |
| LoginComponent.LoginComponent.constructor | frontend/src/app/login/login.component.ts:16-24 | six empty boxes, focus on the first, no wrong-passcode flag |
| LoginComponent.LoginComponent.MoveFocusBack | frontend/src/app/login/login.component.ts:45-52 | the focus moves as `FocusBack` says and no box changes |
| LoginComponent.LoginComponent.HandleKeyDown | frontend/src/app/login/login.component.ts:38-43 | only Backspace moves the focus |
| LoginComponent.LoginComponent.HandleAuthSuccess | frontend/src/app/login/login.component.ts:87-90 | the name is stored and the router goes to the dashboard |
| LoginComponent.LoginComponent.SendAuthRequest | frontend/src/app/login/login.component.ts:74-85 | the passcode is sent; on a success with a body the returned name is stored and the dashboard opened; on a failure, or a `null` body whose `name` cannot be read, only the flag is raised |
| LoginComponent.LoginComponent.HandleInput | frontend/src/app/login/login.component.ts:54-72 | the box takes the value and the focus moves on; earlier boxes clear the flag and send nothing; the last box sends the six values joined |
| Session.SessionCheckEndToEnd | frontend/src/app/services/auth/auth.service.ts:27-44 | client and server together: a session is reported exactly when there is a token and the server verifies its part before any space |
| Session.SessionCheckWholeToken | frontend/src/app/services/auth/auth.service.ts:34 | a token without spaces is accepted exactly when the whole token verifies |
| Session.RecordHeaderVerifies | frontend/src/app/services/company-records/company-records.service.ts:39-47 | the record service's header passes the server's bearer check and hands it the exact token, for a token with no space |
| Session.LoginEndToEnd | backend/controllers/auth/authController.js:16-33 | a passcode that finds a user, with a token that signs, gives the client exactly the user's name, in a reply the login view accepts |
| Session.UnknownPasscodeRefused | backend/controllers/auth/authController.js:18-20 | a passcode that finds no user gives the client a 401 failure |
| Session.EmptyPasscodeRejected | backend/controllers/auth/authController.js:8-10 | the empty passcode gives the client a 400 failure, whatever the database |
| Session.ValidCreateFormAccepted | backend/controllers/company-records/createController.js:12-22 | a create form the client accepts passes the server's required-field check, and an empty website is stored as NULL |

## Left out

- The signing and verification inside jsonwebtoken (HMAC, base64url, expiry checking) are not modelled. Both are oracles: verification says valid, invalid or broken, and signing returns a token or fails. The secret, read from the environment, is therefore not modelled either.
- SQL is not interpreted. Each statement is a named value with its parameters, and the database is an oracle from query to rows or error code. In particular, ILIKE matching with `%` and `_` is not modelled.
- The server wiring is not part of this model: `main.js`, the routers, CORS, cookie parsing and the body parser. The client wiring is not part of it either: `app.module.ts` and the routing module. The views' HTML templates are not part of this model. Their one fact used here is that the login view renders six empty boxes.
- Asynchrony and RxJS are collapsed into one synchronous exchange: a request goes out, the server's result comes back, and the handler runs. So are the `async`/`await` of the handlers. Interleavings of concurrent requests are not modelled.
- Console logging (`console.error`, `console.log`) is left out because it has no effect the user sees.
- DOM focus is left out: `focusFirstInput`, `ngAfterViewInit` and the `focus()` calls on input elements. The model keeps `focusedIndex` and each box's value.
- LoginComponent: the unused `digits` array is not modelled.
- SearchComponent.SearchComponent.NotificationTimeout: the 2500 ms timer is a separate method to be called later. Time itself is not modelled.
- Dashboard.DashboardComponent.GetGreetings: the local hour is a parameter instead of a clock reading.
- The clock `jwt.sign` reads is the parameter `nowMs`.
- Strings.ToLower: lowers only the Latin capitals A to Z, not the rest of Unicode.
- String lengths count Dafny characters, not UTF-16 code units, so astral characters are counted differently than in JavaScript.
- Numbers are integers. Floating-point record ids and the rendering of non-integral numbers are not modelled.
- SearchComponent.SearchComponent.GetSearchedRecords: a failed search leaves the table as it was. In the source the search subscribes without an error handler, so the failure is an unhandled error, whereas the fetch path catches its error. The visible state is the same.
- SearchComponent.RowsOf: a reply that is not an array of objects sets nothing up. In the source, `map` may throw on such a reply, or build rows from non-objects.
- SearchComponent.Assigned: a non-object reply adds nothing to the row. A reply member named `form` is not taken to replace the row's edit form, because the row's fields and its form are held apart.
- The Angular form internals are reduced to what the components use: each control's value and errors, validity, `setErrors` on the ISIN control, and `reset`. Pending and disabled states, touched and dirty flags, and the value-change streams are not modelled.
- The HTTP client's failure object is reduced to its status. A transport failure is status 0.
- Some of the repository's tests expect what the code does not do; the model follows the code:
  - `create.component.spec.ts:78-84` expects empty strings after a save, but `reset()` makes every control null.
  - `auth.service.spec.ts:97-108` expects a request when the token cookie is empty, but none is sent.
  - `login.component.spec.ts:67-75` expects `123456` after one input at the last box, but the boxes' actual values are joined.
  - `search.component.spec.ts:220-223` expects a message for `a` under `maxLength(2)`, but `a` passes that check.

## Findings

| source | as written | input that shows it | evidently intended | confidence | as-written member | corrected member |
|---|---|---|---|---|---|---|
| frontend/src/app/dashboard/search/search.component.ts:61-64 | `cancelEdit` calls `row.form.reset(row)`, which seeds each control from the row member of the same name. The ISIN control is named `ISIN` but the row holds `isin`, so the control becomes null. The form is then invalid and the ISIN shows `ISIN is required.` | the test record (id 1, name Test, exchange NYSE, ticker TST, isin US1234567890, website https://test.com): set up, edit, cancel | cancelling an edit restores every control, ISIN included, to the row's values, and the row can be saved again | not executed | SearchComponent.CancelEditExample | SearchComponent.RestoredFormUndoesEdits |
