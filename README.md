# bootstrap-api core, modelled in Dafny

This project models the deterministic core of bootstrap-api, a Go service skeleton. Its parts are:

- an OAuth2 authorisation server backed by a database (the client table and its scope and grant-type policy, the token table, named "tokens", and the token store over it);
- a resource-server side that checks bearer tokens against a remote introspection endpoint;
- the gin router that wires controllers, token verification and the refresh-token endpoint;
- small helpers: sort strings, camelCase to snake_case, text-to-value conversions, grouped errors;
- the `DateOnly` / `TimeOnly` JSON and SQL types and the `SystemUserRole` type;
- the cron job executor;
- the organisation, membership and system-user services, with their guards.

The outside world enters the model as inputs:

- the database, as in-memory tables, or as an answering oracle where the code only sees an interface;
- the HTTP exchange and the clock;
- bcrypt, the struct validator, the cron parser and the uuid generator.

Modules follow the source files. Code that updates objects in place is modelled as classes:

- `DbToken` and the client and token tables;
- `DatabaseClientStore`, `TokenStore` and `Router`;
- `DateOnly`, `TimeOnly` and `SystemUserRole`;
- `JobExecutor`;
- the three services, the repositories and `SystemUser`.

Loops become methods with invariants, each proved against a specification function (`splitAndClean`, `checkIfSubArrayExists`, `CamelToSnake`, `GetSortString`, `GroupedError.Error`, `CalculateJobInstances`, the service guard loops). The rest is functions and lemmas.

Go specifics written out:

- `strconv.ParseInt` is modelled with its cutoff and wrap-around overflow checks.
- `time.Parse` and `time.Format` are modelled for the layouts "2006-01-02" and "15:04".
- `time.Duration` saturates on `Sub`.
- gorm's `Find` fills in a zero record when no row matches.
- gin's `Group` copies the handler chain, so middleware added to a group afterwards does not reach the groups made from it.

## Model

| member | source | states |
|---|---|---|
| ClientPolicy.ClientGetters | auth/db_client_store.go:21-43 | The oauth2.ClientInfo getters return the record's ID, secret, domain, public flag and user ID. |
| ClientPolicy.SplitAndClean | auth/db_client_store.go:79-87 | The result has one item per comma-separated part (separators + 1), and each item is that part with its white space trimmed and lower-cased. |
| ClientPolicy.CheckIfSubArrayExists | auth/db_client_store.go:63-77 | True exactly when every requested item occurs among the authorised items. |
| ClientPolicy.VerifyScopes | auth/db_client_store.go:45-52 | Nil exactly when every cleaned requested scope is among the cleaned scopes of the client; otherwise ErrInvalidScope. |
| ClientPolicy.VerifyGrantTypes | auth/db_client_store.go:54-61 | Nil exactly when every cleaned requested grant type is authorised; otherwise ErrUnauthorizedClient. |
| ClientPolicy.CleanIsNormal | auth/db_client_store.go:84 | A cleaned item has no white space at either end and no upper-case letter. |
| ClientPolicy.CleanIdempotent | auth/db_client_store.go:84 | Cleaning twice equals cleaning once. |
| ClientPolicy.CleanedItemsAreNormal | auth/db_client_store.go:79-87 | Every item that splitAndClean returns is already trimmed and clean. |
| ClientPolicy.EmptyCleansToEmptyItem | auth/db_client_store.go:80 | Splitting the empty string gives one empty item, not none. |
| ClientPolicy.AuthorizesIsSubset | auth/db_client_store.go:45-77 | The decision compares sets: it depends neither on order nor on repetition. |
| ClientPolicy.EmptyRequest | auth/db_client_store.go:45-77 | An empty request passes exactly when the policy itself has an empty item. |
| ClientPolicy.EmptyPolicy | auth/db_client_store.go:45-77 | The empty policy accepts exactly the requests whose items are all blank. |
| ClientPolicy.AuthorizesMonotone | auth/db_client_store.go:63-77 | If a request passes, a request with fewer items passes too. |
| ClientPolicy.ReadWritePolicy | auth/db_client_store.go:45-52 | Against "Read, Write", a single item passes exactly when it cleans to "read" or "write". |
| ClientPolicy.ReadWriteExample | auth/db_client_store.go:45-52 | "Read, Write" accepts "read" and " WRITE " and rejects "delete". |
| ClientPolicy.PasswordOnlyRejectsClientCredentials | auth/db_client_store.go:54-61 | The grant types "password" accept "password" and reject "client_credentials". |
| ClientPolicy.SingleItems | auth/db_client_store.go:45-77 | For two items without commas, the decision is equality after cleaning. |
| ClientRepo.Lookup | auth/client_repo.go:20-28 | Returns the first row with that ID, which is in the table; with no such row it returns the zero record. |
| ClientRepo.WithoutId | auth/client_repo.go:30-34 | Keeps exactly the rows whose ID differs. |
| ClientRepo.ClientTable.Save | auth/client_repo.go:15-18 | Uses one statement of the connection. A failed statement gives an error. A taken ID gives a duplicate-key error and leaves the table unchanged. Otherwise the row is appended, and the key stays unique. |
| ClientRepo.ClientTable.FindById | auth/client_repo.go:20-28 | Uses one statement and leaves the rows as they are. A failed query gives (nil, nil). Otherwise the matching row or the zero record, never an error. |
| ClientRepo.ClientTable.DeleteById | auth/client_repo.go:30-34 | Uses one statement. It removes exactly the rows with that ID; a failed statement leaves the table unchanged. |
| ClientRepo.UniqueAppend | auth/client_repo.go:15-18 | Appending a row with a fresh ID keeps IDs unique. |
| ClientRepo.WithoutIdUnique | auth/client_repo.go:30-34 | Deleting keeps IDs unique. |
| ClientRepo.FindAfterSave | auth/client_repo.go:15-28 | After saving a client, finding its ID returns it. |
| ClientRepo.LookupAppend | auth/client_repo.go:15-28 | An appended row changes a lookup only when no earlier row matched. |
| ClientRepo.FindAfterDelete | auth/client_repo.go:20-34 | After deleting an ID, finding it gives the zero record, whose ID is the empty string. |
| ClientRepo.DeleteAbsent | auth/client_repo.go:30-34 | Deleting an ID that no row holds changes nothing. |
| ClientRepo.CountWithoutId | auth/client_repo.go:30-34 | After a delete, no row holds the ID. |
| ClientRepo.WithoutIdCommutes | auth/client_repo.go:30-34 | Deletes of two IDs commute. |
| ClientRepo.WithoutIdIdempotent | auth/client_repo.go:30-34 | Deleting twice equals deleting once. |
| ClientStore.DatabaseClientStore.GetByID | auth/db_client_store.go:102-104 | Returns the repository's answer as an interface: the matching row or the zero record. A failed query gives an interface holding a nil *Client, which is not nil, so the result is never nil. |
| ClientStore.DatabaseClientStore.Set | auth/db_client_store.go:107-115 | The lookup's and the delete's errors are dropped. The old row is removed only when both statements succeed; a failed lookup skips the delete. The client, with the ID written into it, is then inserted, and only the insert's outcome is reported: storage failure, a duplicate key when the old row is still there, or nil. |
| ClientStore.SetOnWorkingConnection | auth/db_client_store.go:107-115 | When none of the three statements fails, the key is free for the insert and the table becomes SetRows: the old row replaced by the client. |
| ClientStore.SetAfterFailedLookup | auth/db_client_store.go:107-115 | When the lookup fails but the insert goes through and the ID is already stored, the old row stays and the insert meets it: Set reports a duplicate key. |
| ClientStore.SetLeavesOneRow | auth/db_client_store.go:107-115 | After Set exactly one row holds the ID, and it is the given client with that ID. |
| ClientStore.SetKeepsOthers | auth/db_client_store.go:107-115 | Rows with other IDs are untouched. |
| ClientStore.SetTwice | auth/db_client_store.go:107-115 | On a working connection, two Sets with one ID equal the second Set alone; no duplicate key arises. |
| ClientStore.SetOtherLookup | auth/db_client_store.go:107-115 | Lookups of other IDs answer as before. |
| Token.InfoRoundTrip | auth/token.go:14-32 | Copying a TokenInfo into a DbToken and reading its getters gives back the original, field for field. |
| Token.RecordRoundTrip | auth/token.go:14-32 | Copying a DbToken through NewDBTokenFromTokenInfo gives back the same row. |
| Token.FromInfoInjective | auth/token.go:14-32 | Distinct tokens give distinct rows. |
| Token.DbToken.constructor | auth/token.go:9-11 | NewDBToken: every field is empty or zero. |
| Token.DbToken.FromTokenInfo | auth/token.go:14-32 | The copy answers every getter as the original does. |
| Token.DbToken.New | auth/token.go:57-59 | Returns a fresh, empty record. |
| Token.TableName | auth/token.go:53-55 | The table gorm uses for DbToken rows is "tokens". |
| Token.DbToken.GettersAreAsInfo | auth/token.go:62-209 | The fifteen getters read the fifteen fields. |
| Token.DbToken.SetClientID | auth/token.go:67-69 | Stores the value in the ClientID field and changes no other field, so GetClientID then returns it. |
| Token.DbToken.SetUserID | auth/token.go:77-79 | Stores the value in the UserID field and changes no other field, so GetUserID then returns it. |
| Token.DbToken.SetRedirectURI | auth/token.go:87-89 | Stores the value in the RedirectURI field and changes no other field, so GetRedirectURI then returns it. |
| Token.DbToken.SetScope | auth/token.go:97-99 | Stores the value in the Scope field and changes no other field, so GetScope then returns it. |
| Token.DbToken.SetCode | auth/token.go:107-109 | Stores the value in the Code field and changes no other field, so GetCode then returns it. |
| Token.DbToken.SetCodeCreateAt | auth/token.go:117-119 | Stores the value in the CodeCreateAt field and changes no other field, so GetCodeCreateAt then returns it. |
| Token.DbToken.SetCodeExpiresIn | auth/token.go:127-129 | Stores the value in the CodeExpiresIn field and changes no other field, so GetCodeExpiresIn then returns it. |
| Token.DbToken.SetCodeChallenge | auth/token.go:137-139 | Stores the value in the CodeChallenge field and changes no other field, so GetCodeChallenge then returns it. |
| Token.DbToken.SetCodeChallengeMethod | auth/token.go:147-149 | Stores the value as its string in the CodeChallengeMethod field and changes no other field, so GetCodeChallengeMethod then returns it. |
| Token.DbToken.SetAccess | auth/token.go:157-159 | Stores the value in the Access field and changes no other field, so GetAccess then returns it. |
| Token.DbToken.SetAccessCreateAt | auth/token.go:167-169 | Stores the value in the AccessCreateAt field and changes no other field, so GetAccessCreateAt then returns it. |
| Token.DbToken.SetAccessExpiresIn | auth/token.go:177-179 | Stores the value in the AccessExpiresIn field and changes no other field, so GetAccessExpiresIn then returns it. |
| Token.DbToken.SetRefresh | auth/token.go:187-189 | Stores the value in the Refresh field and changes no other field, so GetRefresh then returns it. |
| Token.DbToken.SetRefreshCreateAt | auth/token.go:197-199 | Stores the value in the RefreshCreateAt field and changes no other field, so GetRefreshCreateAt then returns it. |
| Token.DbToken.SetRefreshExpiresIn | auth/token.go:207-209 | Stores the value in the RefreshExpiresIn field and changes no other field, so GetRefreshExpiresIn then returns it. |
| TokenRepo.Find | auth/token_repository.go:20-60 | Returns a matching row of the table, or the zero record when none has it. The model picks the earliest matching row (see Left out). |
| TokenRepo.DeleteWhere | auth/token_repository.go:30-66 | Keeps exactly the rows whose key column differs. |
| TokenRepo.TokenTable.Save | auth/token_repository.go:15-18 | Appends the token's current row; a failing connection gives an error. |
| TokenRepo.TokenTable.FindByCode | auth/token_repository.go:20-28 | A fresh DbToken holding a row with that code, or the zero record; nil only when the query fails. |
| TokenRepo.TokenTable.FindByAccess | auth/token_repository.go:36-44 | The same, for the access column. |
| TokenRepo.TokenTable.FindByRefresh | auth/token_repository.go:52-60 | The same, for the refresh column. |
| TokenRepo.TokenTable.DeleteByCode | auth/token_repository.go:30-34 | Removes exactly the rows with that code. |
| TokenRepo.TokenTable.DeleteByAccess | auth/token_repository.go:46-50 | Removes exactly the rows with that access token. |
| TokenRepo.TokenTable.DeleteByRefresh | auth/token_repository.go:62-66 | Removes exactly the rows with that refresh token. |
| TokenRepo.DeleteRemovesMatches | auth/token_repository.go:30-66 | A delete shrinks the table by the number of matches and leaves no match. |
| TokenRepo.DeleteAbsent | auth/token_repository.go:30-66 | Deleting a key that no row has changes nothing. |
| TokenRepo.EmptyKeyMatchesEmptyColumns | auth/token_repository.go:20-66 | The empty key matches rows whose column is empty, for example a token without a code. |
| TokenRepo.FindIsFirst | auth/token_repository.go:20-60 | In the model, a lookup returns the earliest matching row. This is the model's choice of order, not the database's (see Left out). |
| TokenRepo.DeleteByRefreshHidesAccess | auth/token_repository.go:36-66 | After its refresh token is deleted, a token is no longer found by its access token. |
| TokenRepo.FindAppend | auth/token_repository.go:15-60 | In the model, an appended row changes a lookup only when no earlier row matched (insertion order, see Left out). |
| TokenStore.TokenStore.Create | auth/db_token_store.go:19-22 | Stores the row copied from the TokenInfo. |
| TokenStore.TokenStore.RemoveByCode | auth/db_token_store.go:25-27 | Deletes the rows with that code. |
| TokenStore.TokenStore.RemoveByAccess | auth/db_token_store.go:30-32 | Deletes the rows with that access token. |
| TokenStore.TokenStore.RemoveByRefresh | auth/db_token_store.go:35-37 | Deletes the rows with that refresh token. |
| TokenStore.TokenStore.GetByCode | auth/db_token_store.go:40-42 | The repository's lookup by code, returned as an interface. A failed query gives an interface holding a nil *DbToken, which is not nil, so the result is never nil. |
| TokenStore.TokenStore.GetByAccess | auth/db_token_store.go:45-47 | The repository's lookup by access token, returned as an interface. A failed query gives an interface holding a nil *DbToken, which is not nil, so the result is never nil. |
| TokenStore.TokenStore.GetByRefresh | auth/db_token_store.go:50-52 | The repository's lookup by refresh token, returned as an interface. A failed query gives an interface holding a nil *DbToken, which is not nil, so the result is never nil. |
| TokenStore.NewDatabaseTokenStore | auth/db_token_store.go:9-11 | A new store over the given table, with no error. |
| TokenStore.GetAfterCreate | auth/db_token_store.go:19-47 | After Create, GetByAccess returns the created token when no earlier row holds that access token. |
| TokenStore.GetAfterCreateShadowed | auth/db_token_store.go:19-47 | In the model, an earlier row with the same access token shadows the new one (insertion order, see Left out). |
| Introspection.NewIntrospectionTokenStore | router/introspection_store.go:33-40 | Keeps the URL and credentials, and sets a 5-second timeout. |
| Introspection.IntrospectionRequest | router/introspection_store.go:44-50 | The request body carries the access token verbatim after `token=`, and the Basic credentials are the store's. |
| Introspection.ActiveToken | router/introspection_store.go:71-80 | The token built from an active reply carries the queried access token and is created now. It has no code and no refresh token, and both of their lifetimes are zero. |
| Introspection.GetByAccess | router/introspection_store.go:43-81 | A success comes only from a reply that decoded, and its token is the one ActiveToken builds from that reply. |
| Introspection.Create | router/introspection_store.go:87-89 | Always succeeds and stores nothing. |
| Introspection.RemoveByAccess | router/introspection_store.go:84-86 | Always succeeds. |
| Introspection.RemoveByRefresh | router/introspection_store.go:90-92 | Always succeeds. |
| Introspection.RemoveByCode | router/introspection_store.go:97-99 | Always succeeds. |
| Introspection.GetByRefresh | router/introspection_store.go:93-95 | Always fails with "refresh not supported". |
| Introspection.RequestShape | router/introspection_store.go:44-50 | The request is a form POST of `token=<access>` to the configured URL, with Basic credentials and the form content type. |
| Introspection.RequestBodyInjective | router/introspection_store.go:44 | Different tokens give different request bodies. |
| Introspection.GrantedIff | router/introspection_store.go:43-81 | A token is granted exactly when the exchange succeeds with status 200, the body decodes, and `active` is true. |
| Introspection.RefusalErrors | router/introspection_store.go:52-69 | The error a refusal gives: the transport error, "introspection failed: " plus the body, the decode error, or "token is not active". |
| Introspection.GrantedToken | router/introspection_store.go:71-80 | A granted token carries the response's client, user and scope, and the access token. Its lifetime is measured from now to `exp`. |
| Introspection.MissingExpIsExpired | router/introspection_store.go:78 | With `exp` absent (zero), the lifetime is negative. |
| Introspection.GetByCode | router/introspection_store.go:101-103 | A code is introspected exactly like an access token. |
| Introspection.Stubs | router/introspection_store.go:84-99 | The write operations are no-ops that succeed, and GetByRefresh fails with "refresh not supported". |
| Controller.HttpFuncGetters | controller/controller_type.go:27-45 | The getters return what NewHttpFunc stored. |
| Controller.MethodValues | controller/controller_type.go:11-19 | GET, POST, PUT, PATCH and DELETE are 0 to 4. |
| Controller.GetTokenInfo | controller/controller_type.go:53-61 | A missing key gives "no token info found"; a stored token is returned; a value of another type panics. |
| Router.VerifyErrorStatusIff | router/router.go:53-60 | Status 401 exactly for "invalid access token" and "expired access token"; 500 otherwise. |
| Router.VerifyErrorStatus | router/router.go:53-60 | The status is 401 or 500. It is 401 exactly for the texts of the invalid-token and expired-token errors. |
| Router.MethodName | router/router.go:90-101 | Only the five known methods register a route. |
| Router.Dispatch | router/router.go:89-102 | The method switch: exactly one route, under the matching router method, for the five known values, and none otherwise. The route lies under the group's path and runs the group's chain followed by the handler. |
| Router.Router.constructor | router/router.go:36-42 | A new router holds the base URL and the Logger and Recovery middleware, with auth off, no server and no routes. |
| Router.NewRouteHandler | router/router.go:36-42 | Returns that router with no error. |
| Router.Router.EnableAuth | router/router.go:145-160 | Builds the server over the introspection store with the password-grant lifetimes (24 h, 360 days), switches auth on and returns nil. |
| Router.Router.RegisterRoute | router/router.go:50-103 | Adds exactly the routes of the controller's handlers, each behind the chain its group held when it was copied. |
| Router.Router.RegisterRoutes | router/router.go:44-48 | Registers the controllers in order. |
| Router.RoutesForSnoc | router/router.go:89-102 | The routes of one more handler are the earlier routes plus its own. |
| Router.RoutesShape | router/router.go:89-102 | Every route comes from one of the handlers. It carries that handler's method and template, lies under the group's path, and runs the group's chain followed by that handler. |
| Router.BearerNeverOnRoutes | router/router.go:70-87 | The bearer check added to the base group after the controller group was made is on no route. |
| Router.RouteEndsInHandle | router/router.go:89-102 | A given route is registered for some handler of the list, and its chain is the group's chain followed by that handler. |
| Router.VerifierCount | router/router.go:66-74 | With auth enabled for both the router and the controller, token verification runs twice on every route; otherwise it does not run. |
| Router.DispatchOnce | router/router.go:89-102 | Handlers with known methods give one route each, in order. |
| Router.UnknownMethodDropped | router/router.go:89-102 | A handler with an unknown method registers nothing. |
| Router.BearerMiddleware | router/router.go:77-86 | Aborts exactly when validation fails, with status 401 and an "error" key. Otherwise it continues with the earlier keys plus "TokenInfo". |
| Router.BearerDecision | router/router.go:77-86 | The request is aborted with 401 and the error text exactly when validation fails; otherwise the token is stored under "TokenInfo" and the chain continues. |
| Router.RefreshResponseAsWritten | router/router.go:185-190 | The body as written: the four keys, with expires_in the Duration's nanosecond count. |
| Router.RefreshResponse | router/router.go:185-190 | The corrected body: the same four keys and the same values, except expires_in (see Findings). |
| Router.RefreshTokenHandler | router/router.go:162-199 | As written: the status is 200 or 400, and the manager is called exactly when all three fields are non-empty. A 200 carries the as-written body of the token the manager returned. |
| Router.RefreshTokenHandlerIntended | router/router.go:162-199 | The corrected handler: the same, with the success body in whole seconds (see Findings). |
| Router.RefreshMissingParameters | router/router.go:164-171 | A missing refresh token, client ID or secret gives 400 "Missing parameters" without calling the manager, in both handlers. |
| Router.RefreshCallsManager | router/router.go:173-199 | Otherwise the manager is asked with exactly those three values. Its error gives 400 with the error text; its token gives 200 with the as-written body (the corrected handler gives the corrected body). |
| Router.HandlersDifferInExpiresInOnly | router/router.go:162-199 | The two handlers agree on status, manager call, every error reply and every key of a success body except the value of expires_in. |
| Router.RefreshResponseShape | router/router.go:185-198 | The reply has exactly access_token, refresh_token, expires_in (in whole seconds) and token_type "Bearer" (the corrected form, see Findings). |
| Router.ExpiresInAsWrittenIsNanoseconds | router/router.go:185-188 | As written, a 24-hour token reports expires_in 86400000000000. |
| Convert.CamelToSnake | helper/convert.go:81-94 | The loop's result is the snake_case rendering Snake. |
| Convert.SnakeHasNoUpper | helper/convert.go:81-94 | The result has no upper-case letter. |
| Convert.SnakeOfLower | helper/convert.go:81-94 | A string without capitals is unchanged. |
| Convert.SnakeIdempotent | helper/convert.go:81-94 | Converting twice equals converting once. |
| Convert.SnakeLength | helper/convert.go:81-94 | Each capital adds an underscore, except a capital in first position. |
| Convert.SnakeKeeps | helper/convert.go:81-94 | A character that is neither a letter nor '_' and is absent from the input is absent from the output. |
| Convert.SortParts | helper/convert.go:69-75 | One converted item per part, in order. |
| Convert.GetSortString | helper/convert.go:65-78 | The loop's result is SortString: the items split at ',', converted, joined with ", " and trimmed. |
| Convert.SortStringCommas | helper/convert.go:65-78 | The result has as many commas as the input. |
| Convert.SortStringEmpty | helper/convert.go:65-78 | The empty input gives the empty result. |
| Convert.SortPartCases | helper/convert.go:70-75 | "field:dir" becomes snake(field) + " " + dir; a bare field becomes snake(field). |
| Convert.SecondColonDropped | helper/convert.go:70-75 | Text after a second ':' is dropped. |
| Convert.SortStringOfTwo | helper/convert.go:65-78 | Two items give their converted forms joined by ", " and trimmed. |
| Convert.ExampleItems | helper/convert.go:65-78 | "createdAt:desc" becomes "created_at desc" and "name" stays "name". With ExampleJoin this gives "created_at desc, name". |
| Convert.ExampleJoin | helper/convert.go:77 | The two example items join to "created_at desc, name". |
| TypeConversion.StringToBool | helper/type_conversion.go:16-24 | Only "true" and "false" are read, and each formats back to itself; anything else gives "invalid boolean value". |
| TypeConversion.BoolRoundTrip | helper/type_conversion.go:16-24 | Both booleans survive formatting and reading. |
| TypeConversion.ParseInt | helper/type_conversion.go:26-32 | A value is always within int64; errors are syntax or range errors on the whole input. |
| TypeConversion.StringToInt64 | helper/type_conversion.go:26-32 | The same, for the helper. |
| TypeConversion.OverflowsIff | helper/type_conversion.go:26-32 | strconv's cutoff-and-wrap overflow test equals "n*10+d exceeds the uint64 maximum". |
| TypeConversion.ParseIntSpec | helper/type_conversion.go:26-32 | Success exactly for an optional sign followed by at least one digit whose value fits int64; then the value is that number. A well-formed value out of range gives a range error. |
| TypeConversion.RejectsEmpty | helper/type_conversion.go:26-32 | "", "+" and "-" are syntax errors. |
| TypeConversion.ShortMalformedIsSyntax | helper/type_conversion.go:26-32 | A malformed input of at most 19 characters is a syntax error, never a range error. |
| TypeConversion.FormatInt | helper/type_conversion.go:26-32 | The decimal rendering of v reads back as v. |
| TypeConversion.Int64RoundTrip | helper/type_conversion.go:26-32 | Every int64 survives formatting and reading. |
| TypeConversion.RejectsOutOfRange | helper/type_conversion.go:26-32 | The rendering of a number outside int64 gives a range error. |
| TypeConversion.StringToDateOnly | helper/type_conversion.go:50-58 | A success is a valid date whose "2006-01-02" form is the input; a failure is the parse error for that layout. |
| TypeConversion.StringToTimeOnly | helper/type_conversion.go:60-68 | A success comes from four or five characters. It is a valid time of day on 0000-01-01 UTC that formats back as the input (with a leading zero added to a one-digit hour). A failure is the parse error for "15:04". |
| Calendar.DaysIn | types/date_only.go:35 | Months have 28 to 31 days, and 29 exactly for February of a leap year. |
| Calendar.ParseDate | types/date_only.go:52-58 | A parsed date is valid, at midnight UTC, and formats back to the input. |
| Calendar.ParseQuotedDate | types/date_only.go:35 | A parsed quoted date formats back to the input with its quotes. |
| Calendar.ParseClock | types/time_only.go:29 | A parsed clock time is valid and on 0000-01-01. Five-character input formats back as itself; a one-digit hour formats with a leading zero. |
| Calendar.DateRoundTrip | types/date_only.go:43-58 | A valid date with a year in 0..9999 survives formatting and parsing. |
| Calendar.QuotedDateRoundTrip | types/date_only.go:23-41 | The same, in quotes. |
| Calendar.ClockRoundTrip | types/time_only.go:39-68 | A valid time survives "15:04" formatting and parsing, keeping hour and minute. |
| Calendar.WideYearUnreadable | types/date_only.go:43-58 | A year of five or more digits formats but does not parse back. |
| Calendar.NegativeYearUnreadable | types/date_only.go:43-58 | A negative year formats but does not parse back. |
| Calendar.ZeroFormats | types/date_only.go:43-45 | The zero time in UTC formats as "0001-01-01" and "00:00". |
| Calendar.ZeroInUtc | types/date_only.go:24 | In UTC, IsZero holds exactly for the zero time. |
| DateOnly.Midnight | types/date_only.go:15-19 | The same date and location, at midnight. |
| DateOnly.MidnightKeepsDate | types/date_only.go:15-19 | The formatted date is unchanged, and the conversion is idempotent. |
| DateOnly.Encode | types/date_only.go:23-29 | "null" exactly for the zero time; any other valid date with a year in 0..9999 reads back through ParseQuotedDate. |
| DateOnly.DateOnly.MarshalJSON | types/date_only.go:23-29 | "null" for the zero time, else the quoted date. |
| DateOnly.DateOnly.Value | types/date_only.go:43-45 | The unquoted date, which parses back; the zero time gives "0001-01-01". |
| DateOnly.DateOnly.UnmarshalJSON | types/date_only.go:31-41 | Nil is a no-op; a quoted date is stored; anything else, "null" included, is an error and keeps the time. |
| DateOnly.DateOnly.Scan | types/date_only.go:47-62 | A time is stored as is and a string is parsed; any other value gives "can not convert … to CustomDate". |
| DateOnly.NullRejected | types/date_only.go:31-41 | The text null is a parse error. |
| DateOnly.ZeroDoesNotRoundTrip | types/date_only.go:23-41 | As written, the JSON of the zero value is rejected when read back. |
| DateOnly.DecodeNullSafe | types/date_only.go:23-41 | The corrected decoder: no data and `null` both leave the time as it was and succeed. |
| DateOnly.NullSafeRoundTrip | types/date_only.go:23-41 | With "null" read as no value (DecodeNullSafe), every value survives a JSON round trip. |
| TimeOnly.Encode | types/time_only.go:39-47 | "null" exactly for the zero time; otherwise seven bytes whose inner five parse back. |
| TimeOnly.Unquote | types/time_only.go:24 | Panics below two bytes; otherwise drops the first and last byte unchecked. |
| TimeOnly.TimeOnly.MarshalJSON | types/time_only.go:39-47 | "null" for the zero time, else the quoted "HH:MM". |
| TimeOnly.TimeOnly.Value | types/time_only.go:49-51 | "HH:MM", which parses back; the zero time in UTC gives "00:00". |
| TimeOnly.TimeOnly.UnmarshalJSON | types/time_only.go:19-36 | Nil is a no-op; one byte panics; otherwise the inner text must parse as "15:04", else an error that keeps the time. |
| TimeOnly.TimeOnly.Scan | types/time_only.go:53-68 | A time is stored as is and a string is parsed; any other value gives "can not convert … to TimeOnly". |
| TimeOnly.ZeroDoesNotRoundTrip | types/time_only.go:19-47 | As written, the zero value's "null" is read as the clock text "ul" and rejected. |
| TimeOnly.DecodeNullSafe | types/time_only.go:19-47 | The corrected decoder: no data and `null` both leave the time as it was and succeed. |
| TimeOnly.NullSafeRoundTrip | types/time_only.go:19-47 | With "null" read as no value (DecodeNullSafe), every valid value survives a JSON round trip. |
| Role.RolesDistinct | model/system_user_role.go:10-14 | The three role texts differ. |
| Role.SystemUserRole.Value | model/system_user_role.go:27-29 | The role's text. |
| Role.SystemUserRole.Scan | model/system_user_role.go:17-24 | Any string becomes the role, not only the three names; another type gives "type assertion to string failed" and keeps the role. |
| Role.SystemUserRole.ScanOwnValue | model/system_user_role.go:17-29 | Scanning the role's own Value succeeds and keeps it. |
| ErrorHelper.ErrorPanic | helper/error.go:9-13 | Panics exactly on a non-nil error, with that error's text. |
| ErrorHelper.Error | helper/error.go:19-28 | The loop's result is Render: one "- desc\n" line per error, in order. |
| ErrorHelper.GetErrors | helper/error.go:30-32 | Returns the held errors. |
| ErrorHelper.RenderConcat | helper/error.go:19-28 | Rendering distributes over concatenation. |
| ErrorHelper.RenderLength | helper/error.go:19-28 | The length is the sum of the descriptions' lengths plus three per error; the text is empty exactly when there are no errors. |
| ErrorHelper.RenderLines | helper/error.go:19-28 | With descriptions free of newlines, there is one newline per error. |
| ErrorHelper.RenderSplit | helper/error.go:19-28 | Split at newlines, the text gives back "- " + each description, then an empty tail. |
| JobExecutor.Fired | job/job_executor.go:36-41 | Inside the window (strictly after start, strictly before end) `now` is appended to that job's log; otherwise nothing changes. Other jobs' logs never change. |
| JobExecutor.JobExecutor.constructor | job/job_executor.go:25-31 | Empty jobs, log and schedule. |
| JobExecutor.JobExecutor.RegisterJob | job/job_executor.go:33-48 | The job is recorded under its ID, replacing any earlier one. Its closure is scheduled only when the schedule is accepted. Logs are untouched. |
| JobExecutor.JobExecutor.Fire | job/job_executor.go:35-42 | A scheduled closure runs the job function and logs `now` only inside the copy's window. It keeps "every logged time lies in the window of a scheduled job with that ID". |
| JobExecutor.InstancesSpec | job/job_executor.go:50-64 | The instances are the successive Next times from Next(start), all before the end. They increase, and the Next of the last is not before the end. |
| JobExecutor.CalculateJobInstances | job/job_executor.go:50-64 | An invalid schedule gives none; otherwise the loop collects exactly Instances(Next, Next(start), end). |
| JobExecutor.InstancesBetween | job/job_executor.go:50-64 | Every instance lies after the start and before the end, and they are strictly increasing. |
| ServiceGuards.FirstFailureSpec | service/organization_service.go:33-67 | The guard passes exactly when every item validates (and, for updates, has an id). Otherwise it reports the first item that fails: its validation error, or "entity id is missing". |
| ServiceGuards.CheckItems | service/organization_service.go:33-67 | The guard loop returns FirstFailure. |
| ServiceGuards.CheckIds | service/organization_service.go:77-102 | "invalid id" exactly when some id is Nil. |
| OrganizationService.OrganizationService.Create | service/organization_service.go:25-31 | An invalid item returns the validation error with no repository call; otherwise one Save, whose answer is returned. |
| OrganizationService.OrganizationService.CreateMany | service/organization_service.go:33-42 | One invalid item means the first validation error and no call; otherwise one SaveMany with all items. |
| OrganizationService.OrganizationService.Update | service/organization_service.go:44-53 | Validation error, or "entity id is missing" for a Nil id, with no call; otherwise one Update. |
| OrganizationService.OrganizationService.UpdateMany | service/organization_service.go:55-67 | The first invalid item or Nil id stops it before any call; otherwise one UpdateMany. |
| OrganizationService.OrganizationService.Delete | service/organization_service.go:69-75 | A Nil id gives "entity id is missing" and no call; otherwise one Delete. |
| OrganizationService.OrganizationService.DeleteMany | service/organization_service.go:77-85 | Any Nil id gives "invalid id" and deletes nothing; otherwise one DeleteByIds. |
| OrganizationService.OrganizationService.FindById | service/organization_service.go:87-92 | A Nil id gives "entity id is missing" and no call; otherwise one FindById. |
| OrganizationService.OrganizationService.FindByIds | service/organization_service.go:94-102 | Any Nil id gives "invalid id" and fetches nothing; otherwise one FindByIds. |
| OrganizationService.OrganizationService.FindAll | service/organization_service.go:104-120 | A failing FindAll gives the empty page and its error. Otherwise Count(nil) follows, and its count is both the total and the page size, with page number 0; the count's error is dropped. |
| OrganizationService.OrganizationService.Search | service/organization_service.go:122-138 | A failing Search gives the empty page and its error. Otherwise Count(params) follows; the total is the count and the page size and number come from the params; the count's error is dropped. |
| OrganizationService.OrganizationService.Deleted | service/organization_service.go:140-142 | One Deleted call, whose answer is returned. |
| SystemUserOrganizationService.SystemUserOrganizationService.Create | service/system_user_organization_service.go:30-36 | An invalid item returns the validation error with no call; otherwise one Save. |
| SystemUserOrganizationService.SystemUserOrganizationService.CreateMany | service/system_user_organization_service.go:38-47 | The first validation error and no call, or one SaveMany. |
| SystemUserOrganizationService.SystemUserOrganizationService.Update | service/system_user_organization_service.go:49-58 | Validation error, or "entity id is missing" for a Nil id, with no call; otherwise one Update. |
| SystemUserOrganizationService.SystemUserOrganizationService.UpdateMany | service/system_user_organization_service.go:60-72 | The first invalid item or Nil id stops it before any call; otherwise one UpdateMany. |
| SystemUserOrganizationService.SystemUserOrganizationService.Delete | service/system_user_organization_service.go:74-80 | A Nil id gives "entity id is missing" and no call; otherwise one Delete. |
| SystemUserOrganizationService.SystemUserOrganizationService.DeleteMany | service/system_user_organization_service.go:82-90 | Any Nil id gives "invalid id" and no call; otherwise one DeleteByIds. |
| SystemUserOrganizationService.SystemUserOrganizationService.FindById | service/system_user_organization_service.go:92-97 | A Nil id gives "entity id is missing" and no call; otherwise one FindById. |
| SystemUserOrganizationService.SystemUserOrganizationService.FindByIds | service/system_user_organization_service.go:99-107 | Any Nil id gives "invalid id" and no call; otherwise one FindByIds. |
| SystemUserOrganizationService.SystemUserOrganizationService.FindAll | service/system_user_organization_service.go:109-125 | A failing FindAll gives the empty page and its error. Otherwise Count is called with the same filter, and that count is both total and page size, with page number 0. |
| SystemUserOrganizationService.SystemUserOrganizationService.Search | service/system_user_organization_service.go:127-143 | Items from Search, total from Count(params), page size and number from the params; the count's error is dropped. |
| SystemUserOrganizationService.SystemUserOrganizationService.Deleted | service/system_user_organization_service.go:145-147 | One Deleted call, whose answer is returned. |
| SystemUserService.LookupName | service/system_user_service.go:30-38 | As written: no lookup exactly when both contacts are empty, and any lookup uses the email. |
| SystemUserService.IntendedLookupName | service/system_user_service.go:30-38 | The corrected choice of name: the email if given, else the mobile number, else no lookup (its properties are IntendedLookupSpec). |
| SystemUserService.MobileIgnored | service/system_user_service.go:34-36 | As written, a mobile-only search looks up the empty name, not the mobile number. |
| SystemUserService.IntendedLookupSpec | service/system_user_service.go:30-38 | The corrected lookup never searches for an empty name: it uses the email if given, else the mobile (see Findings). |
| SystemUserService.SystemUserService.SearchUserByEmailOrMobile | service/system_user_service.go:30-38 | Both empty gives "email and mobile are both nil" and no lookup; otherwise one FindByUserName with the LookupName choice, whose answer is returned. |
| SystemUserService.Prepare | service/system_user_service.go:73-92 | Register succeeds exactly when validation, id generation (needed only for a Nil id) and hashing all succeed. Then the id is non-Nil, a non-Nil id is kept, and the stored password is the hash. Only the id and password change, and a failing step leaves the earlier writes in place. |
| SystemUserService.SystemUserService.Register | service/system_user_service.go:73-96 | The user object changes as Prepare says. Nothing is saved unless every step succeeds; then one Save of the prepared record. The object is returned with the save's error. |
| SystemUserService.SystemUserService.RegisterUserAndOrg | service/system_user_service.go:41-61 | The org save comes first; its failure stops everything, and a nil org without error panics. The saved org becomes the primary organisation, then the user is registered. Only if both succeed is an Owner membership of the two saved. Earlier writes are never undone. |
| SystemUserService.MembershipQuery | service/system_user_service.go:109-112 | The search names the organisation and the text of the user id. |
| SystemUserService.SystemUserService.DeleteOrgSystemUserById | service/system_user_service.go:108-124 | The search error is returned; no match gives "user not found"; otherwise only the first match is deleted, by its id. |
| SystemUserService.SystemUserService.VerifyPassword | service/system_user_service.go:134-156 | An empty name or password gives "user not found" with no lookup. Nil exactly when the lookup succeeds with a user whose stored hash matches. Otherwise the lookup error, "user not found", or the comparison's error. |
| Model.UuidText | service/system_user_service.go:110 | The text of a uuid: 36 characters with dashes after the 8th, 12th, 16th and 20th digit, and the other 32 characters are the uuid's hexadecimal digits in order. |
| Model.UuidTextInjective | service/system_user_service.go:110 | Different uuids have different texts, so the membership search names exactly one user. |
| Model.HexDigitsDenote | service/system_user_service.go:110 | The k hexadecimal digits of a number below 16^k denote that number. |
| Repository.BaseRepository.Invoke | repository/repository.go:10-83 | Every call through the interface is recorded in order and answered by the implementation. |
| Repository.SystemUserRepo.Invoke | repository/system_user_repository.go:19-47 | The same, for the user repository. |

## Left out

- HTTP, gin, CORS, Sentry, JSON encoding of replies and logging: these are library I/O.
  - The router is modelled as the route table it builds.
  - Handlers are modelled as the status and body they produce.
- The value of `constants.TokenKey` is not part of the source: GetTokenInfo takes the key as a parameter.
- `time.Now`, the introspection HTTP exchange, the oauth2 manager's RefreshAccessToken, the cron parser and `schedule.Next`, bcrypt, the struct validator and `uuid.NewUUID` are all inputs to the model.
- Concurrency of cron jobs and of the HTTP server is left out. Fire models one run of a scheduled closure at a time.
- JobExecutor.CalculateJobInstances: requires `Next` to be strictly increasing. A cron schedule's Next always is, except for a schedule that never fires again, where Go returns the zero time and the loop would not end.
- The database is modelled as an in-memory table (clients, tokens) or an answering oracle (the BaseRepository interface and SystemUserRepo).
  - gorm's SQL, transactions, GetDB and the `tx` argument are left out.
  - Values that gorm writes back into saved rows (generated ids, timestamps) are left out.
- SystemUserRepo is treated as a plain interface. Its gorm implementation never answers a nil user without an error, so VerifyPassword's nil-user branch (service/system_user_service.go:145-147) is reachable only through other implementations.
- OrganizationService.OrganizationService.Search and SystemUserOrganizationService.SystemUserOrganizationService.Search: both take non-nil criteria. A nil `searchParams` panics in Go once the repository answers, and that is not modelled.
- The 2-argument repository calls of OrganizationService and the 3-argument ones of the interface are modelled as the same call.
- Time is modelled with fixed-offset locations only: time zone databases are left out. IsZero is exact for offsets of less than one day.
- Floating point (StringToFloat64), StringToDate with RFC 3339, JsonRawMessageToJson, ReadJsonAsType, ParamAsUUId and QueryAsUUId are left out: they are outside the modelled helpers.
- Strings are sequences of characters. Go's Unicode-aware `ToLower`, `TrimSpace` and `IsUpper` are modelled only for ASCII letters and the ASCII white-space set.
- Console output (`fmt.Printf` in the job executor) is left out: it affects no state.
- The cron engine is created with a seconds field while CalculateJobInstances parses five-field schedules. Both parsers are inputs here, so the mismatch is noted but not modelled.
- The gorm hooks that stamp creation and update times are left out: they only read the clock.
- The token table's `failing` flag makes every statement fail or none. Each token-store operation runs a single statement, so nothing is lost there. The client table instead takes a per-statement script, because Set runs up to three statements.
- GetAfterCreate: the equality includes the three create times. A Postgres timestamp column keeps microseconds and no monotonic clock reading, so a real read-back can differ from the created token in those fields. The model's table stores values exactly.
- RegisterRoute and RegisterRoutes: gin panics when the same method and path are registered twice (two handlers of one controller, or two controllers with the same group name and template). The model appends both routes and does not model that panic.
- The introspection store reads the clock twice, for AccessCreateAt and inside `time.Until`. The model uses one reading `now` for both, so the lifetime is measured from the creation time exactly.
- TokenRepo.Find, TokenRepo.FindIsFirst, TokenRepo.FindAppend, TokenStore.GetAfterCreateShadowed: the lookups have no ORDER BY, and the code, access and refresh columns are not unique, so Postgres may return any matching row. The model picks the earliest inserted one. Only Find's own contract (a matching row, or the zero record) is independent of that choice.
- The "can not convert" error of DateOnly.Scan and TimeOnly.Scan is modelled without the scanned value: Go's text includes the value, formatted with `%v`.
- ErrorHelper.ErrorPanic: Go panics with the error value; the model's panic carries the error's text.
- The remaining SystemUserService methods (DeleteUserById, DeleteOrgById, GetUserByUserName, GetByUserId, RegisterOrganization) each pass a single repository call through, and are left out.

## Findings

| source | as written | input that shows it | evidently intended | confidence | as-written member | corrected member |
|---|---|---|---|---|---|---|
| router/router.go:185-190 | `expires_in` is the access token's `time.Duration`, which JSON encodes as nanoseconds | a 24-hour access token: expires_in 86400000000000 | seconds, as section 5.1 of RFC 6749 requires (86400) | high, not executed | Router.RefreshTokenHandler, Router.RefreshResponseAsWritten, Router.ExpiresInAsWrittenIsNanoseconds | Router.RefreshTokenHandlerIntended, Router.RefreshResponse, Router.RefreshResponseShape |
| types/date_only.go:23-41 | MarshalJSON writes `null` for the zero value, but UnmarshalJSON only skips a nil slice and parses `null` as a date | the zero DateOnly: its JSON `null` is rejected with a parse error | `null` reads back as "no value", as the nil check aims at | medium, not executed | DateOnly.ZeroDoesNotRoundTrip | DateOnly.DecodeNullSafe, DateOnly.NullSafeRoundTrip |
| types/time_only.go:19-47 | the same for TimeOnly: `null` loses its first and last byte and "ul" is parsed as a clock time | the zero TimeOnly: its JSON `null` is rejected | `null` reads back as "no value" | medium, not executed | TimeOnly.ZeroDoesNotRoundTrip | TimeOnly.DecodeNullSafe, TimeOnly.NullSafeRoundTrip |
| service/system_user_service.go:34-36 | with only a mobile number given, FindByUserName is called with the (empty) email | email "", mobile "0712345678": the lookup is for user name "" | look the mobile number up | high, not executed | SystemUserService.LookupName, SystemUserService.MobileIgnored | SystemUserService.IntendedLookupName, SystemUserService.IntendedLookupSpec |
