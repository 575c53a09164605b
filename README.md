# investments-exercise in Dafny

A model of the decision logic of the investments-exercise backend, an
Express/Prisma REST service. The service keeps investments (amount, annual
rate, confirmation date, creation date, creator), authenticates callers with
HTTP Basic credentials and single-use JWTs, and reports investment statistics
grouped by day, week, month or year.

The model covers:

- **Statistics** (`stats_util.dfy`):
  - the key function `formatInvestmentsStatsTimePeriodUtil`, with key round trips back to the calendar bucket;
  - `defineStatsFromInvestments` (`_.groupBy`, `Object.keys`, count and `_.sumBy`), with grouping, totals and the key order that `Object.keys` gives. `object_keys.dfy` models that order: array-index keys come first in ascending numeric order, then the other keys in insertion order. `number_text.dfy` models the decimal rendering the keys are built from.
- **The test oracle** `calculateInvestmentStatsByInvestments` (`stats_oracle.dfy`):
  - an imperative loop over a `seq<Stat>`, proved equal to a fold and then to the first-occurrence grouping;
  - its agreement with the server's statistics when both aggregate the same records, the comparison the statistics test makes.
- **Authentication** (`auth_middleware.dfy`, `passport.dfy`, `auth_service.dfy`):
  - the Basic scheme gate;
  - the Basic verify callback over an abstract account store and SHA-256;
  - the JWT pass-through and the secret fallback;
  - the claims built at login;
  - the JWT gate with its module-level revocation set. The set is a class `TokenRevocationList` with a `set` field, and request sequences are replayed to show that a header is admitted at most once.
- **Authorisation and routing guards** (`permissions.dfy`, `http_methods.dfy`, `errors.dfy`): the permission gate, the HTTP method allow-lists and the error-to-response middleware.
- **Request handling**:
  - validation of the statistics query (`stats_api.dfy`);
  - the GET filter and the query options of the investments route, and the POST payload rule (`investments_api.dfy`);
  - `checkSortOrder` and `checkModelField` (`query_util.dfy`);
  - the pagination arithmetic of `getInvestments` (`investments_data.dfy`).

JavaScript semantics that decide branches are written out in `js_values.dfy`:

- **`type-check`:** a string is never a `Number`; `NaN` is not a `Number`, while `Infinity` and `-Infinity` are; a `Date` passes only when its time is valid.
- **Truthiness:** `undefined`, `""`, `NaN` and `0` are falsy; the infinities are truthy.
- **The or-operator** returns its left operand when that is truthy, else its right one.
- **Conversions:** `Number(...)`, `String(undefined) == "undefined"` and `new Date(...)`. The string parsers are parameters (`Parsers`).

Express query values are always strings, and several findings below follow from that.

Two behaviours that a reader might expect otherwise, modelled as the code has them:

- Invalid Basic credentials are answered with 401 (middlewares/auth.middleware.ts:36-43), and the authentication test expects exactly that: login rejects a wrong password rather than issuing a read-only token.
- The week key uses date-fns `getWeek`, a locale week, together with `getYear`. It does not use ISO weeks.

## Model

| member | source | states |
|---|---|---|
| NumberText.NatToString | src/investments/stats/investments.stats.util.ts:24-30 | the template-literal rendering of a non-negative integer is a canonical numeral (digits, no superfluous leading zero) |
| NumberText.PadNat | src/investments/stats/investments.stats.util.ts:21 | `dd`/`MM`/`yyyy` padding gives only digits and at least the requested width |
| NumberText.ParseNatToString | src/investments/stats/investments.stats.util.ts:24-30 | reading a rendered number back gives the number |
| NumberText.ParsePadNat | src/investments/stats/investments.stats.util.ts:21 | zero padding never changes the value read back |
| NumberText.CanonicalIsRendering | src/investments/stats/investments.stats.util.ts:24-30 | every canonical numeral is the rendering of its value, so rendering is a bijection onto canonical numerals |
| ObjectKeys.SortIndexKeys | src/investments/stats/investments.stats.util.ts:50 | the array-index keys that `Object.keys` lists first come out ascending and are a permutation of the input |
| ObjectKeys.KeysWhereClassified | src/investments/stats/investments.stats.util.ts:50 | the index selection holds only array-index keys and the other selection none |
| ObjectKeys.ObjectKeyOrderPermutation | src/investments/stats/investments.stats.util.ts:50 | `Object.keys` lists every property of the grouping exactly as often as it was created |
| ObjectKeys.ObjectKeyOrder | src/investments/stats/investments.stats.util.ts:50 | `Object.keys` of the grouping object: the ascending array-index keys, then the other keys in insertion order |
| ObjectKeys.ObjectKeyOrderShape | src/investments/stats/investments.stats.util.ts:50 | index keys precede the others and ascend numerically; non-index keys keep insertion order |
| ObjectKeys.IndexKeysFirst | src/investments/stats/investments.stats.util.ts:50 | ascending index keys followed by non-index keys put every index key before the others, in ascending order |
| ObjectKeys.NoIndexKeysKeepOrder | src/investments/stats/investments.stats.util.ts:50 | without index keys `Object.keys` is insertion order |
| ObjectKeys.AscendingKeysKeepOrder | src/investments/stats/investments.stats.util.ts:50 | index keys inserted in ascending order keep that order |
| ObjectKeys.ObjectKeyOrderDistinct | src/investments/stats/investments.stats.util.ts:47-50 | distinct property names stay distinct and no name is gained or lost |
| StatsUtil.EraYear | src/investments/stats/investments.stats.util.ts:21 | the year `yyyy` prints is at least 1 and equals the year from year 1 on; year 0 prints as 1 |
| StatsUtil.TimePeriodKey | src/investments/stats/investments.stats.util.ts:16-31 | a key exists exactly when the record has a creation date (a missing date gives `null`); the key is the rendering of the date's bucket |
| StatsUtil.BucketRoundTrip | src/investments/stats/investments.stats.util.ts:21-30 | the rendering of any bucket reads back as that bucket |
| StatsUtil.KeyRoundTrip | src/investments/stats/investments.stats.util.ts:21-30 | every key reads back as the bucket of its date: `dd/MM/yyyy` with 1-based month and year of era, `week/year`, 0-based `month/year`, `year` |
| StatsUtil.SameKeyIffSameBucket | src/investments/stats/investments.stats.util.ts:16-31 | two dates share a key if and only if they fall in the same bucket of the unit |
| StatsUtil.YearZeroSharesDayKeyWithYearOne | src/investments/stats/investments.stats.util.ts:21 | a date in year 0 gets the day key of the same day in year 1 and reads back with year 1 |
| StatsUtil.DayKeyLayout | src/investments/stats/investments.stats.util.ts:21 | for a four-digit year the day key is ten characters with '/' at positions 2 and 5 |
| StatsUtil.RenderingWidth | src/investments/stats/investments.stats.util.ts:21 | a number below 10^k renders in at most k digits and pads to exactly k |
| StatsUtil.MonthKeyZeroBased | src/investments/stats/investments.stats.util.ts:21-27 | the month key carries `getMonth` (January is `0/yyyy`) while the day key carries the 1-based month and the year of era |
| StatsUtil.SlashKeyIsNotIndex | src/investments/stats/investments.stats.util.ts:21-27 | day, week and month keys are never array indices |
| StatsUtil.YearKeyIsIndex | src/investments/stats/investments.stats.util.ts:30 | a year key is an array index whose numeric value is the year |
| StatsUtil.WeekKeyMergesWeeksOfDifferentYears | src/investments/stats/investments.stats.util.ts:24 | two dates in different week-numbering years can receive the same week key |
| StatsUtil.WeekKeyIntendedSeparatesWeeks | src/investments/stats/investments.stats.util.ts:24 | with the week-numbering year, equal week keys mean the same week, and the key reads back as (week, week-year) |
| StatsUtil.FirstOccurrences | src/investments/stats/investments.stats.util.ts:47 | the groups `_.groupBy` creates are distinct and cover exactly the keys present |
| StatsUtil.FirstOccurrencesOrder | src/investments/stats/investments.stats.util.ts:47 | groups are created in order of each key's first record |
| StatsUtil.CountIsMultiplicity | src/investments/stats/investments.stats.util.ts:53 | a group's `count` is the number of records with that key |
| StatsUtil.Group | src/investments/stats/investments.stats.util.ts:47 | the group `_.groupBy` files under a key holds only records of the input with that key |
| StatsUtil.GroupSums | src/investments/stats/investments.stats.util.ts:53-54 | a key's count is the size of its group and its total `_.sumBy(group, 'amount')` |
| StatsUtil.StatsForTotals | src/investments/stats/investments.stats.util.ts:53-54 | over distinct keys covering all records, counts add up to the record count and totals to the summed amounts |
| StatsUtil.EntryKeys | src/investments/stats/investments.stats.util.ts:47 | a group key occurs exactly when some record's `time_period` (or "null") is that key |
| StatsUtil.DefineStatsGroups | src/investments/stats/investments.stats.util.ts:47-57 | one entry per distinct `time_period`, no two sharing a key; each entry's count is the size of its key's group (at least 1) and its `total_amount` the sum of that group's amounts |
| StatsUtil.DefineStatsTotals | src/investments/stats/investments.stats.util.ts:47-57 | all counts sum to the input length and all totals to the sum of all amounts, null-dated records included |
| StatsUtil.DefineStats | src/investments/stats/investments.stats.util.ts:44-60 | `defineStatsFromInvestments`: one element per key of the grouping object, in `Object.keys` order, with its count and summed amount |
| StatsUtil.Tag | src/investments/stats/investments.stats.data.ts:20-37 | the query result: each record keeps its amount and gains the `time_period` of its creation date, one tagged record per record |
| StatsUtil.InvestmentsStats | src/investments/stats/investments.stats.data.ts:35-40 | the statistics of the fetched records: tag, then aggregate |
| StatsUtil.DefineStatsOrder | src/investments/stats/investments.stats.util.ts:47-50 | entries follow `Object.keys`: index keys first and ascending, the rest in first-occurrence order |
| StatsUtil.NonYearStatsFirstOccurrenceOrder | src/investments/stats/investments.stats.util.ts:47-50 | for day, week and month the entries are in first-occurrence order |
| StatsUtil.YearStatsAscending | src/investments/stats/investments.stats.util.ts:30 | for year the entries come out in ascending year order, with "null" last |
| StatsUtil.YearKeysAreIndices | src/investments/stats/investments.stats.util.ts:30 | with years below 2^32 - 1 every year group key is an array index or "null" |
| StatsUtil.IndexKeysAscendNullLast | src/investments/stats/investments.stats.util.ts:47-57 | when every group key is an index or "null", the entries' index keys ascend and "null" comes last |
| StatsUtil.StatKeysIndexOrNull | src/investments/stats/investments.stats.util.ts:47-57 | the entries' keys are drawn only from the group keys, so they too are indices or "null" |
| StatsUtil.NullLast | src/investments/stats/investments.stats.util.ts:50 | in `Object.keys` order a non-index "null" key follows every index key |
| StatsUtil.EmptyStats | src/investments/stats/investments.stats.util.ts:47-57 | no investments give no entries |
| StatsOracle.KeyIndex | tests/utils/test.util.ts:39 | `findIndex` gives -1 when no entry has the key, else the first entry with it |
| StatsOracle.FindIndex | tests/utils/test.util.ts:39 | the search loop returns the `findIndex` result |
| StatsOracle.OracleStep | tests/utils/test.util.ts:39-45 | one iteration for a kept record: push `{key: {1, amount}}` when `findIndex` gives -1, else bump that element |
| StatsOracle.OracleFold | tests/utils/test.util.ts:31-48 | the array after the loop has seen a prefix of the records, skipping undated and zero-amount ones |
| StatsOracle.AddToStats | tests/utils/test.util.ts:39-45 | one record appends `{key: {1, amount}}` for a new key or bumps only the existing entry |
| StatsOracle.CalculateStats | tests/utils/test.util.ts:30-49 | the loop computes the fold of the per-record step over the tagged records, skipping falsy dates and amounts |
| StatsOracle.StepExtendsGrouping | tests/utils/test.util.ts:39-45 | one step of the loop maps the grouping of the records so far to the grouping with one more record |
| StatsOracle.KeyIndexInKeys | tests/utils/test.util.ts:39 | `findIndex` gives -1 exactly when no entry has the key, and otherwise a position holding the key |
| StatsOracle.StepKnownKey | tests/utils/test.util.ts:42-45 | a repeat key changes only its entry's count and total; nothing else and no order changes |
| StatsOracle.StepNewKey | tests/utils/test.util.ts:40-41 | a first occurrence appends its entry at the end |
| StatsOracle.OracleIsGrouping | tests/utils/test.util.ts:33-46 | the oracle's result is the first-occurrence grouping of the records it keeps |
| StatsOracle.OracleProperties | tests/utils/test.util.ts:33-46 | keys unique in first-occurrence order, counts at least 1, counts summing to the kept records and totals to their amounts |
| StatsOracle.KeptAll | tests/utils/test.util.ts:34 | when no record has a falsy date or amount the oracle keeps every record |
| StatsOracle.OracleAgreesWithServer | tests/investments/02_investments.stats.test.ts:77-108 | given the same records with nothing skipped, the oracle equals the server's statistics for day, week and month |
| StatsOracle.OracleAgreesWithServerByYear | tests/investments/02_investments.stats.test.ts:110-120 | with nothing skipped and records in non-decreasing year order, the oracle equals the server's year statistics |
| JsValues.Truthy | src/investments/investments.api.ts:104 | JavaScript truthiness: `undefined`, `""`, `NaN` and 0 are falsy; the infinities, every other value and every `Date` object are truthy |
| JsValues.ToNumber | src/investments/investments.api.ts:42-49 | `Number(v)`: `undefined` is `NaN`, text goes through the number parser, a valid date gives its time |
| JsValues.Trunc | src/investments/investments.api.ts:98 | rounding toward zero: within 1 of the argument, on the side of 0 |
| JsValues.ToDate | src/investments/investments.api.ts:98 | `new Date(v)`: a number is valid exactly when it is finite with magnitude at most 8.64e15, and its time is then that number rounded toward zero; `NaN` and the infinities give `Invalid Date` |
| JsValues.TypeCheckUtil | util/typeCheck.util.ts:16-18 | the value is returned exactly when it is defined and of the type, else `undefined`; a `Number` is any number but `NaN`, a `Date` one with a valid time |
| JsValues.Or | src/investments/investments.api.ts:42-72 | JavaScript's or-operator gives its left operand when that is truthy, else its right one |
| JsValues.TypeCheckIdempotent | util/typeCheck.util.ts:16-18 | checking twice is checking once, and a surviving value has the type |
| JsValues.NumberCheck | util/typeCheck.util.ts:16-18 | `NaN` fails `"Number"` and yields `undefined`; every other number passes, `Infinity` included; no string passes |
| JsValues.DateCheck | util/typeCheck.util.ts:16-18 | a checked date is truthy if and only if it is a valid date |
| ResponseErrors.Send | loaders/error.loader.ts:24-30 | a `ResponseError` answers with its own status and body `{error: {message}}` |
| ResponseErrors.HandleError | middlewares/error.middleware.ts:10-21 | message verbatim; envelope body and own status exactly for a `ResponseError`, 500 with `{message}` otherwise |
| ResponseErrors.HandleErrorRoundTrip | middlewares/error.middleware.ts:13-18 | the error can be read back from the response it produced |
| ResponseErrors.HandleErrorInjective | middlewares/error.middleware.ts:13-18 | different errors give different responses |
| HttpMethods.CheckHttpMethods | middlewares/checkHttpMethod.middleware.ts:13-27 | proceeds if and only if the method is, case-sensitively, in the allow-list; otherwise 405 "Method not allowed." |
| HttpMethods.RouteAllowLists | src/investments/investments.api.ts:23 | investments allow GET and POST, statistics GET, auth POST; a lower-case "get" is refused |
| HttpMethods.CheckHttpMethodsMonotone | middlewares/checkHttpMethod.middleware.ts:17-19 | widening an allow-list never refuses a method it admitted |
| PermissionsMiddleware.FirstMissing | middlewares/checkPermissions.middlware.ts:24-27 | the loop stops at the first required permission not granted, or finds none |
| PermissionsMiddleware.CheckPermissions | middlewares/checkPermissions.middlware.ts:16-36 | passes if and only if the granted list is non-empty and holds every required permission; an empty or missing list gives "Missing permissions"; otherwise "Permission not found" |
| PermissionsMiddleware.CheckPermissionsMonotone | middlewares/checkPermissions.middlware.ts:20-31 | granting more permissions never turns a pass into a failure |
| PermissionsMiddleware.CheckPermissionsFewerRequired | middlewares/checkPermissions.middlware.ts:24-27 | requiring fewer permissions never turns a pass into a failure |
| PassportLoader.FindFirst | loaders/passport.loader.ts:32-37 | the first account whose email matches and whose password is the input's hex digest, or none when no account matches |
| PassportLoader.VerifyBasic | loaders/passport.loader.ts:24-49 | exactly one of error and user; "Invalid login data." if and only if a field is empty; a user if and only if some account matches (the first one); "Invalid credentials." otherwise |
| PassportLoader.SecretOrKey | loaders/passport.loader.ts:17 | the secret is `SECRET_KEY` when set and non-empty, else the start timestamp |
| PassportLoader.Sign | src/auth/auth.service.ts:21 | `jwt.sign(payload, key)`: a token carrying the payload, openable only with the key |
| PassportLoader.AuthenticateJwt | loaders/passport.loader.ts:14-18 | passport-jwt: no bearer token and a bad signature are rejected, a good token reaches the verify callback |
| PassportLoader.Decode | src/auth/auth.service.ts:21 | a token decodes exactly under the key it was signed with |
| PassportLoader.SignDecodeRoundTrip | src/auth/auth.service.ts:21 | decoding a signed payload under its key gives the payload back, and fails under any other key |
| PassportLoader.JwtVerify | loaders/passport.loader.ts:53-61 | the JWT strategy authenticates with the decoded payload unchanged |
| PassportLoader.JwtPassThrough | loaders/passport.loader.ts:54-56 | a token signed under the secret authenticates with its own payload |
| AuthMiddleware.FirstWord | middlewares/auth.middleware.ts:25 | `split(' ')[0]` is the header up to its first space, itself holding no space |
| AuthMiddleware.FirstWordOf | middlewares/auth.middleware.ts:25 | a space-free word followed by nothing or a space is the header's first word |
| AuthMiddleware.BasicRequestIff | middlewares/auth.middleware.ts:25 | a header is a Basic request if and only if it is "Basic" or starts with "Basic " |
| AuthMiddleware.IsBasicRequest | middlewares/auth.middleware.ts:25 | the negation of the pass-through test: a header is present, non-empty, and its first space-separated word is `Basic` |
| AuthMiddleware.BasicAuth | middlewares/auth.middleware.ts:22-55 | a non-Basic request passes untouched; under Basic a strategy error or missing user gives 401 with no account; success attaches the user |
| AuthMiddleware.FindById | middlewares/auth.middleware.ts:84-88 | finds the account with the id, or none when no account has it |
| AuthMiddleware.LookupAccount | middlewares/auth.middleware.ts:83-94 | a truthy id that resolves to no account gives "Account not found"; an absent or zero id skips the lookup |
| AuthMiddleware.JwtAuthStep | middlewares/auth.middleware.ts:64-117 | proceeds if and only if the strategy authenticated, the lookup succeeded and the header is not yet used; the list grows by exactly the header on acceptance and is unchanged on every 401 |
| AuthMiddleware.TokenRevocationList.constructor | middlewares/auth.middleware.ts:11 | the list starts empty |
| AuthMiddleware.TokenRevocationList.Add | middlewares/auth.middleware.ts:106 | adding inserts exactly the header |
| AuthMiddleware.JwtAuth | middlewares/auth.middleware.ts:64-117 | the middleware's outcome and the list's new contents are those of the step function on the old list |
| AuthMiddleware.StrategyFailureLeavesListAlone | middlewares/auth.middleware.ts:72-78 | a strategy error or `info` gives 401 before the list is consulted and leaves it unchanged |
| AuthMiddleware.UnknownAccountLeavesListAlone | middlewares/auth.middleware.ts:83-94 | an unknown account id gives 401 "Account not found" and the header is not recorded |
| AuthMiddleware.AdmissionOutcome | middlewares/auth.middleware.ts:97-107 | the attached account is the lookup result (none without an id), permissions default to `[]`, and a used header gives "Token already used" |
| AuthMiddleware.Replay | middlewares/auth.middleware.ts:11 | over a request sequence the list only grows |
| AuthMiddleware.UsedNeverProceeds | middlewares/auth.middleware.ts:103-107 | a header already in the list is refused at every later request |
| AuthMiddleware.AdmittedAtMostOnce | middlewares/auth.middleware.ts:103-107 | in any request sequence, once a header is admitted every later request with it fails |
| AuthMiddleware.TokenReuseRejected | tests/auth/auth.test.ts:84-90 | the same valid token used twice passes the first time and fails the second |
| AuthService.LoginPermissions | src/auth/auth.service.ts:17 | an account gets exactly `["read","write"]`, an anonymous login exactly `["read"]` |
| AuthService.LoginAccountClaim | src/auth/auth.service.ts:18 | the account claim holds an id exactly when there is an account, and it is that account's id |
| AuthService.Login | src/auth/auth.service.ts:14-28 | the token decodes under the secret to exactly the permissions and account claims (and the issue time) |
| AuthService.LoginEndpoint | src/auth/auth.api.ts:24-35 | a token is issued if and only if the Basic gate passes, and it is the login token for the attached account |
| AuthService.AccountTokenPassesGates | src/auth/auth.service.ts:17 | an account's token passes both the read and the write permission gates |
| AuthService.AnonymousTokenIsReadOnly | src/auth/auth.service.ts:17 | an anonymous token passes the read gate and fails the write gate with "Permission not found" |
| AuthService.InvalidCredentialsRejected | tests/auth/auth.test.ts:27-37 | Basic credentials that match no account are refused with 401 |
| AuthService.ValidCredentialsGiveReadWrite | tests/auth/auth.test.ts:40-55 | matching Basic credentials give a token with read and write for the first matching account |
| AuthService.NoBasicGivesReadOnly | tests/auth/auth.test.ts:58-70 | without Basic credentials login issues a read-only token with no account id |
| AuthService.BearerIsNotBasic | tests/auth/auth.test.ts:61 | a Bearer header is not a Basic request |
| AuthService.LoginTokenAdmittedOnce | tests/auth/auth.test.ts:73-91 | a login token passes the JWT gate once with read and write, and its replay is refused |
| QueryUtil.Lower | util/query.util.ts:10 | lower-casing changes each character independently and keeps the length |
| QueryUtil.LowerIdempotent | util/query.util.ts:10 | lower-casing twice is lower-casing once |
| QueryUtil.CheckSortOrder | util/query.util.ts:9-10 | the lower-cased input if and only if it lower-cases to "asc" or "desc", else undefined |
| QueryUtil.CheckSortOrderProperties | util/query.util.ts:9-10 | the result is in {asc, desc} or undefined, ignores case, and is idempotent on defined results |
| QueryUtil.CheckSortOrderExamples | util/query.util.ts:9-10 | "ASC" gives "asc", "Desc" gives "desc", "" and "ascending" give undefined |
| QueryUtil.FindModel | util/query.util.ts:20 | `find` gives the first model with the name, or none |
| QueryUtil.CheckModelField | util/query.util.ts:18-30 | false when no model has the name; true if and only if the first model with the name has a field with exactly the given name |
| StatsApi.DateBound | src/investments/stats/investments.stats.api.ts:44-45 | a bound is the date the query string parses to when that is valid, and undefined exactly when it is not |
| StatsApi.StatsPayloadOf | src/investments/stats/investments.stats.api.ts:41-49 | the payload: both `created_at` bounds through `DateBound`, and `groupBy` type-checked as a string |
| StatsApi.UnitOf | src/investments/stats/investments.stats.api.ts:56 | a grouping unit exists exactly for "day", "week", "month" and "year" |
| StatsApi.ValidateStatsQuery | src/investments/stats/investments.stats.api.ts:41-61 | 400 on the date bounds if and only if neither is valid; 400 on `groupBy` if and only if the bounds pass and `groupBy` is missing or not a unit; otherwise the payload with invalid bounds left undefined |
| StatsApi.DateCheckComesFirst | src/investments/stats/investments.stats.api.ts:52-58 | when both checks fail the date message wins |
| StatsApi.RejectedTestQueries | tests/investments/02_investments.stats.test.ts:50-65 | the six invalid queries of the statistics test are all refused with 400, each with its own message |
| StatsApi.AcceptedTestQuery | tests/investments/02_investments.stats.test.ts:77 | valid bounds with a unit are accepted |
| InvestmentsApi.Param | src/investments/investments.api.ts:42-61 | a query parameter is a string or undefined |
| InvestmentsApi.ExactOrRange | src/investments/investments.api.ts:42-61 | the exact value when it is truthy, else the `{gt, lt}` range |
| InvestmentsApi.NumberFilter | src/investments/investments.api.ts:42-49 | a numeric field: `typeCheckUtil("Number", Number(...))` of the parameter, or the range of its `Gt`/`Lt` variants, each `undefined` when absent or `NaN` |
| InvestmentsApi.DateFilter | src/investments/investments.api.ts:50-57 | a date field: `typeCheckUtil("Date", new Date(String(...)))` of the parameter, or the range of its `Gt`/`Lt` variants |
| InvestmentsApi.CreatedByFilter | src/investments/investments.api.ts:58-61 | the `created_by` field as written, checking `String(...)` of the parameters against "Number" |
| InvestmentsApi.GetFilter | src/investments/investments.api.ts:41-62 | the five fields of the `where` payload, the rate read from the `annualeRate` parameters; an absent numeric bound is `undefined`, no constraint |
| InvestmentsApi.NumberFilterMeaning | src/investments/investments.api.ts:42-49 | a numeric filter is exact, with the parsed value, if and only if the parameter parses to a number other than `NaN` and 0 (an infinity included); otherwise `gt` and `lt` are each the parsed `Gt`/`Lt` value, and `undefined` exactly when absent or `NaN` |
| InvestmentsApi.DateFilterMeaning | src/investments/investments.api.ts:50-57 | a date filter is exact, with the parsed date, if and only if the parameter parses to a valid date; otherwise `gt` and `lt` are each the parsed valid date, and undefined exactly when absent or invalid |
| InvestmentsApi.AnnualRateSpelling | src/investments/investments.api.ts:46-48 | without `annualeRate*` parameters the rate filter is `{gt: undefined, lt: undefined}`, no constraint, whatever a correctly spelled `annualRate` says |
| InvestmentsApi.CreatedByNeverFilters | src/investments/investments.api.ts:58-61 | as written, the creator filter is always a range with both bounds undefined |
| InvestmentsApi.CreatedByIntendedFilters | src/investments/investments.api.ts:58-61 | with the parameter converted by `Number`, a non-zero creator id filters exactly |
| InvestmentsApi.PageAndOffsetAlwaysDefault | src/investments/investments.api.ts:66-67 | as written, page is always 1 and offset always 100 |
| InvestmentsApi.PageAndOffsetIntended | src/investments/investments.api.ts:66-67 | with `Number` conversion, a page or offset parsing to a number other than `NaN` and 0 is used; an absent one, or one parsing to `NaN` or 0, takes the default 1 or 100 |
| InvestmentsApi.SortBy | src/investments/investments.api.ts:69-71 | `sort.by`: the `sortBy` text when it is a truthy string and `checkModelField("investments", …)` holds, else "created_at" |
| InvestmentsApi.SortOrder | src/investments/investments.api.ts:72 | `sort.order`: `checkSortOrder` of the `sortOrder` string or "", else "desc" |
| InvestmentsApi.OptionsOf | src/investments/investments.api.ts:65-74 | the query options as written: page and offset checked as "Number" without conversion, defaulting to 1 and 100 |
| InvestmentsApi.SortByNeverHonoured | src/investments/investments.api.ts:69 | when no model of the datamodel is named "investments", the sort is always `created_at` |
| InvestmentsApi.SortByIntended | src/investments/investments.api.ts:69-71 | `sort.by` checked against the model name `Investment` |
| InvestmentsApi.SortByIntendedHonoursField | src/investments/investments.api.ts:69-71 | with the model's own name, a non-empty `sortBy` naming a field of `Investment` is used, anything else gives `created_at` |
| InvestmentsApi.SortOptions | src/investments/investments.api.ts:68-73 | `sort.by` is `sortBy` exactly when it is a non-empty field of `investments`, else "created_at"; `sort.order` is the normalised `sortOrder`, else "desc" |
| InvestmentsApi.CreatePayloadOf | src/investments/investments.api.ts:95-101 | the new record: type-checked `Number` amount and rate, type-checked `new Date` confirmation, `created_at` now, `created_by` the caller's id or `undefined` |
| InvestmentsApi.PayloadAccepted | src/investments/investments.api.ts:104 | the negation of line 104's test: every field truthy and neither number negative |
| InvestmentsApi.PostInvestment | src/investments/investments.api.ts:95-112 | a rejected payload gives 400 and leaves the store alone; an accepted one is appended holding `Number(amount)`, `Number(annualRate)`, `new Date(confirmedAt)`, `created_at` now, and `created_by` the account id, or `undefined` for an anonymous caller |
| InvestmentsApi.PayloadAcceptedIff | src/investments/investments.api.ts:104-106 | accepted if and only if amount and rate are `> 0` (positive numbers or `Infinity`) and `new Date(confirmedAt)` is valid (text that parses, or a finite number of magnitude at most 8.64e15) |
| InvestmentsApi.RejectedTestBodies | tests/investments/01_investments.test.ts:97-113 | the five invalid bodies of the test are refused and the valid payload is accepted |
| InvestmentsApi.ZeroAmountRejected | src/investments/investments.api.ts:104 | a zero amount is falsy and refused |
| InvestmentsApi.NumericConfirmationDates | src/investments/investments.api.ts:98-106 | a fractional millisecond confirmation date is accepted and rounded toward zero; one beyond 8.64e15 is refused with 400 |
| InvestmentsApi.InfinityIsANumber | src/investments/investments.api.ts:42-106 | a query amount parsing to `Infinity` filters exactly on it; a body with amount `Infinity` is accepted and stored, one with `-Infinity` refused with 400 |
| InvestmentsData.Take | src/investments/investments.data.ts:22 | `take` is the offset |
| InvestmentsData.Skip | src/investments/investments.data.ts:23 | `skip` is `offset * (page - 1)` |
| InvestmentsData.Ceil | src/investments/investments.data.ts:40 | `Math.ceil` is the least integer not below its argument |
| InvestmentsData.TotalPages | src/investments/investments.data.ts:40 | the page count is defined exactly for a non-zero offset |
| InvestmentsData.TotalPagesBounds | src/investments/investments.data.ts:40 | the pages cover every record, the last page is non-empty, and no records means no pages |
| InvestmentsData.PageRows | src/investments/investments.data.ts:20-27 | a page is the window of `offset` records after the first `offset * (page - 1)`, a skip that is never negative |
| InvestmentsData.Window | src/investments/investments.data.ts:20-27 | `skip`/`take` gives at most `take` records, the i-th being record `skip + i`, and exactly `take` when enough follow |
| InvestmentsData.GetInvestments | src/investments/investments.data.ts:17-46 | the envelope counts every matching record, echoes page and offset, and carries the page's records and the page count |
| InvestmentsData.FirstPageSkipsNothing | src/investments/investments.data.ts:23 | page 1 skips nothing |
| InvestmentsData.PageWithinTotal | src/investments/investments.data.ts:40 | a page that starts before the last record is within the page count |
| InvestmentsData.EveryRecordOnItsPage | src/investments/investments.data.ts:20-40 | record k is on page `k / offset + 1`, at position `k % offset`, and that page is within the page count |

## Left out

- Prisma and the database: the statistics query is the list of records it returns, tagged by the key function; the investments query is the list of matching records; the account store is a sequence; `create` appends to a sequence.
- The Prisma client extension that adds `time_period` is modelled only by its effect, tagging each record with the key function (`StatsUtil.Tag`).
- Express routing and request plumbing: the middlewares are composed by hand. The login route is modelled as `AuthService.LoginEndpoint`.
- The test helper `retrieveToken` involves HTTP calls and a retry loop.
- passport-http's parsing of the Basic header: the verify callback's result (`Done`) is an input to the Basic gate.
- jsonwebtoken: a token is an abstract value holding its payload and key. The text encoding and signature algorithm are left out.
- passport-jwt extracting the token: `AuthenticateJwt` takes the extracted token (or none).
- crypto: SHA-256 is a parameter.
- date-fns and time zones: a creation date is its local calendar fields with the locale week number and week-numbering year as given values.
- `new Date(...)` and `Number(...)` string parsing: parameters.
- The current time: a parameter.
- Floating point: finite amounts and rates are real numbers, so the order of summation in `_.sumBy` or in `+=` has no effect, and a sum never rounds or overflows to `Infinity`. Parsed numbers can be `Infinity` or `-Infinity` (`Number("1e400")`), but the text-to-number parser is a parameter, so which texts give them is not modelled.
- Query parameters given as arrays or nested objects, and JSON `null` or booleans in request bodies: values are strings, numbers, dates or undefined.
- `toLocaleLowerCase`: modelled as ASCII lower-casing.
- Concurrency: requests are processed one at a time, so the check-then-insert on the revocation list cannot interleave.
- InvestmentsData.GetInvestments: requires page >= 1 and offset >= 1. What Prisma does with a negative `skip` or a zero `take` is not modelled. The handler as written always passes page 1 and offset 100.
- TimePeriodKey: years before year 0 are not represented (`year` is a natural number), so the `yyyy` rendering of negative years and the signed `getYear` text are not modelled; stored creation dates come from the server clock.
- StatsOracle.OracleAgreesWithServer: the oracle and the server are given the same record sequence. The statistics test feeds the oracle the body of GET /api/investments, one page of at most 100 records sorted by `created_at` descending, while the server aggregates an unpaged, unordered `findMany`; the two inputs agree only when at most 100 records were created that day and the page order gives the same first occurrences per key as the unpaged order.
- StatsOracle.OracleAgreesWithServerByYear: requires records in non-decreasing year order. With records out of year order, `Object.keys` sorts the year keys and the oracle does not, so the two can differ. The statistics test fetches only records created on one day, so its records share one year.

## Findings

| source | as written | input that shows it | evidently intended | confidence | as-written member | corrected member |
|---|---|---|---|---|---|---|
| src/investments/investments.api.ts:58-61 | `typeCheckUtil("Number", String(req.query.createdBy))`: a string never passes the `Number` check | any query, e.g. `?createdBy=3` | `Number(req.query.createdBy)`, as for the other numeric filters | high, not executed | InvestmentsApi.CreatedByNeverFilters | InvestmentsApi.CreatedByIntendedFilters |
| src/investments/investments.api.ts:66-67 | `typeCheckUtil("Number", req.query.page)`: query values are strings, so the check never passes | `?page=2&offset=10` | convert with `Number` first, so a valid page and offset are used | high, not executed | InvestmentsApi.PageAndOffsetAlwaysDefault | InvestmentsApi.PageAndOffsetIntended |
| src/investments/stats/investments.stats.util.ts:24 | week key is `getWeek` with the calendar year `getYear` | 2024-12-29 (week 1 of 2025) and 2024-01-03 (week 1 of 2024) both give "1/2024" | pair the week with `getWeekYear` | medium, not executed | StatsUtil.WeekKeyMergesWeeksOfDifferentYears | StatsUtil.WeekKeyIntendedSeparatesWeeks |
| src/investments/investments.api.ts:69 | `checkModelField("investments", …)` looks up a model named "investments"; the Prisma model is `Investment` (the generated type `Investment`, the client accessor `database.investment`) | `?sortBy=amount&sortOrder=asc` sorts by `created_at` | check against the model name `Investment` | medium, not executed | InvestmentsApi.SortByNeverHonoured | InvestmentsApi.SortByIntendedHonoursField |
