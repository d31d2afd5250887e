# Admission-exam dashboard: a verified model of its request layer

This project is a Dafny model of the code that connects the admission-exam
dashboard to its backend. It covers both sides:

- **The Next.js client's HTTP wrapper** (`frontend/src/apis/http.ts`):
  - how the request headers are composed;
  - how the body is encoded;
  - which base URL is chosen;
  - the status rule that turns a response into an `ApiResponseError`.
- **Four request-builder files**, which name each backend endpoint: merchants,
  merchant store locations, social events, and subjects/topics.
- **The display normalisers** for names and contact numbers.
- **On the Django side:**
  - the limit/offset pagination block that `CustomPagination` writes into every
    list response;
  - the custom user manager's `create_user` and `create_superuser`;
  - the user model's permission hooks.

Modules, one per file:

- `Wrappers`: `Option` and `Result`.
- `Assoc`: ordered string-keyed entry lists. Python dictionaries and header lists
  are both modelled as these.
- `JsonModel`: JSON values.
- `Decimal`: how `toString()`/`String()` print integers, with a parser as its
  inverse.
- `FetchHeaders`: the Fetch Standard's `Headers` object, as a class.
- `SearchParams`: `URLSearchParams`, as a class, and the `path?query` target.
- `Http`: `http.ts`.
- `Endpoint`: the call description each request builder returns, and how it is
  dispatched to `http.get/post/put/patch/delete`.
- Request builders: `MerchantRequests`, `StoreLocationRequests`,
  `SocialEventRequests`, `SubjectRequests`.
- `Display`: `utils/index.ts`.
- `Pagination`: `core/api/pagination.py`.
- `Accounts`: `core/models.py`.

The main results:

- **The status check.** The client tests the regular expression
  `/^(2|3)[0-9][0-9]$/` on the printed status. The model proves that this
  accepts exactly the statuses 200 to 399, which are the 2xx and 3xx classes of
  section 15 of RFC 9110.
- **The composed header list**, proved against a specification function:
  - `accept` is always first;
  - `content-type` is absent exactly when files are sent;
  - `authorization` is present exactly when a token exists or the caller gave one;
  - every other caller header passes through unchanged.
- **The pagination block:**
  - `next` and `previous`, each with both directions of its condition;
  - the page count and page index, bounded as exact ceilings;
  - the offset of page `k` comes back as index `k`.
- **The name joiner.** Splitting its output at spaces gives back exactly the
  non-empty parts.
- **The superuser manager** reports the first failing flag check, in source
  order. Every superuser it creates holds every permission.

Three behaviours of the code worth knowing:

- **A missing status gives error code 501.** `handleError` passes
  `httpStatusCode ?? 501`, so a missing status gives code 501. The constructor's
  400 default applies only when no code is passed.
- **The mock base URL is the same as the default.** `API_MOCK_URL` is read from
  the same variable as `API_URL`. So `isMockedURL` selects the same base as
  passing no options (`Http.MockedEqualsDefault`).
- **The search actions would fail to paginate.** The `advanced_search` actions
  pass the serializer's list to `get_paginated_response`:
  - core/api/views/subject_views.py:52 (subjects);
  - core/api/views/subject_views.py:280 (questions);
  - core/api/views/question_views.py:51.

  On a list, `data["data"]` raises TypeError, so `advanced_search` would fail if
  it were ever called (`Pagination.GetPaginatedResponse`, list case). The URL
  configurations in the repository never dispatch it: they route only the list
  views' `as_view()`, whose `list` passes a dictionary.

## Model

| member | source | states |
|---|---|---|
| Assoc.Lookup | core/api/pagination.py:7 | Dictionary or header lookup gives no value exactly when no entry has the key; otherwise it gives the value of an entry with that key |
| Assoc.Put | core/api/pagination.py:7 | Assigning to a missing key appends the entry at the end. Assigning to an existing key keeps the length and the order of keys |
| Assoc.Remove | frontend/src/apis/http.ts:20 | Removing a key never lengthens the list and leaves no entry with that key |
| Assoc.LookupPut | core/api/pagination.py:7 | After an assignment the key reads back the new value, and every other key reads as before |
| Assoc.PutUnique | core/api/pagination.py:7 | Assignment keeps keys unique |
| Assoc.LookupRemove | frontend/src/apis/http.ts:20 | After removal the key is absent, and every other key reads as before |
| Assoc.RemoveUnique | frontend/src/apis/http.ts:20 | Removal keeps keys unique |
| Assoc.LookupSnoc | frontend/src/apis/http.ts:16 | Looking a key up in a list with one entry appended: the earliest matching entry wins |
| Decimal.NatToString | frontend/src/apis/requests/merchant.requests.ts:14 | `toString()` of a natural number is a non-empty digit string with no leading zero, and "0" only for 0 |
| Decimal.IntToString | frontend/src/apis/requests/merchant.requests.ts:14 | `toString()` of an integer is non-empty and starts with '-' exactly for negative numbers |
| Decimal.BoolToString | frontend/src/apis/requests/socialEvent.requests.ts:33 | `isValid.toString()` is "true" or "false", and "true" exactly for true |
| Decimal.ParseInt | frontend/src/apis/requests/merchant.requests.ts:14 | The reader of a decimal query value: a plain digit string reads as its numeric value |
| Decimal.NatToStringValue | frontend/src/apis/requests/merchant.requests.ts:14 | The printed digits of `n` have the value `n` |
| Decimal.IntToStringRoundTrip | frontend/src/apis/requests/merchant.requests.ts:14 | Reading a printed integer back gives the same integer, so the backend receives exactly the page, limit and offset sent |
| Decimal.IntToStringInjective | frontend/src/apis/requests/merchant.requests.ts:14 | Distinct integers print differently |
| Decimal.SmallDecimals | frontend/src/apis/requests/merchantStoreLocation.requests.ts:22-25 | The defaults 1 and 10, and 0, print as "1", "10" and "0" |
| Decimal.ThreeDigits | frontend/src/apis/http.ts:55 | A natural number prints in three digits exactly when it is between 100 and 999; the first digit is its hundreds digit |
| Decimal.AtLeastThreeDigits | frontend/src/apis/http.ts:55 | From 100 on, a number prints in at least three digits |
| FetchHeaders.Lower | frontend/src/apis/http.ts:12-13 | Header names are byte-lower-cased, character by character, with the length kept |
| FetchHeaders.LowerIdempotent | frontend/src/apis/http.ts:16 | Lower-casing an already lower-cased name changes nothing |
| FetchHeaders.Combined | frontend/src/apis/http.ts:16 | The value after appending: the new value alone if there was none, else old + ", " + new |
| FetchHeaders.AppendEntry | frontend/src/apis/http.ts:12-16 | Appending a new name adds an entry at the end. Appending an existing name keeps the length and the order of names |
| FetchHeaders.AppendEntryFacts | frontend/src/apis/http.ts:16 | Appending keeps the list well formed (unique, lower-case names). The name then reads as the combined value, and other names are unchanged |
| FetchHeaders.DeleteFacts | frontend/src/apis/http.ts:20 | Deleting keeps the list well formed, removes the name and leaves other names unchanged |
| FetchHeaders.RemoveLowerNames | frontend/src/apis/http.ts:20 | Deleting preserves all-lower-case names |
| FetchHeaders.Headers.constructor | frontend/src/apis/http.ts:11 | `new Headers()` is empty and valid |
| FetchHeaders.Headers.Append | frontend/src/apis/http.ts:12-13 | `append` lower-cases the name and combines the value with an existing one; the object stays valid |
| FetchHeaders.Headers.Delete | frontend/src/apis/http.ts:20 | `delete` removes the lower-cased name; the object stays valid |
| Http.NewApiResponseError | frontend/src/apis/http.ts:38-46 | The name is "ApiResponseError". The message is never empty: an empty one becomes the default text. The code is the given one or 400 |
| Http.StatusPatternExactly2xx3xx | frontend/src/apis/http.ts:55 | The pattern matches the printed status exactly when 200 <= status <= 399 |
| Http.StatusTextPattern | frontend/src/apis/http.ts:55 | With an absent status printed as "undefined", the pattern matches exactly the present statuses from 200 to 399 |
| Http.HandleError | frontend/src/apis/http.ts:51-58 | No error exactly for statuses 200..399. Otherwise: code = the status, or 501 when absent; message = the response's non-empty message, or "Something went wrong!" |
| Http.HandleErrorOutsideRange | frontend/src/apis/http.ts:55-56 | Any status below 0 or above 999 raises, with that status as the code |
| Http.GetBody | frontend/src/apis/http.ts:36 | The payload sent is always the one given. It is JSON-encoded exactly when there is one and no files; it is passed as is exactly when files are sent |
| Http.GetURL | frontend/src/apis/http.ts:63-71 | The URL always ends with the path. The base is the mock base when `isMockedURL`, else a non-empty `baseURL`, else `API_URL`; an unset variable prints "undefined" |
| Http.MockedEqualsDefault | frontend/src/apis/http.ts:4-5 | With both bases read from one variable, a mocked request goes to the same URL as one without options |
| Http.DefaultNamesLowered | frontend/src/apis/http.ts:12-13 | "Accept", "Content-Type" and "Authorization" are stored as `accept`, `content-type` and `authorization` |
| Http.AppendAllWellFormed | frontend/src/apis/http.ts:15-17 | Appending every caller header keeps the list well formed |
| Http.AppendAllLookup | frontend/src/apis/http.ts:15-17 | After the caller's headers are appended, each name reads as the default value combined with the caller's, or as whichever of the two exists |
| Http.AppendAllKeepsPrefix | frontend/src/apis/http.ts:11-17 | Appending never reorders or drops the names already present |
| Http.KeptFacts | frontend/src/apis/http.ts:11-21 | Before the token step: well formed, `accept` first, and each name reads as its expected value |
| Http.SpecFacts | frontend/src/apis/http.ts:10-30 | The final header list is well formed with `accept` first, and each name reads as its expected value. A new `authorization` entry holds "Token " + token |
| Http.GetHeader | frontend/src/apis/http.ts:10-30 | `getHeader` returns a fresh, valid `Headers` whose entries are exactly the header specification for the caller's headers, `hasFiles` and the token |
| Http.AcceptAlwaysSent | frontend/src/apis/http.ts:12-16 | `accept` is always sent: "application/json", combined with the caller's value if one was given |
| Http.ContentTypeAbsentIffFiles | frontend/src/apis/http.ts:13-21 | `content-type` is absent exactly when `hasFiles`; otherwise it is "application/json" combined with the caller's value |
| Http.AuthorizationIffToken | frontend/src/apis/http.ts:23-27 | With a non-empty token, `authorization` is the caller's value combined with "Token " + token (a new last entry when the caller sent none); without one it is exactly what the caller sent |
| Http.OtherHeadersPassThrough | frontend/src/apis/http.ts:15-17 | Any other header reads exactly as the caller gave it |
| Http.AcceptComesFirst | frontend/src/apis/http.ts:11-12 | The first header in the list is `accept` |
| Http.FetchGet | frontend/src/apis/http.ts:83-95 | A GET has no body, the chosen URL, and headers built without `hasFiles` |
| Http.FetchWithBody | frontend/src/apis/http.ts:100-167 | POST, PUT, PATCH and DELETE: the chosen URL; headers and body both follow `hasFiles` |
| Http.ContentTypeOfRequests | frontend/src/apis/http.ts:100-108 | Without files the request declares `content-type: application/json`, or, when the caller gave one, "application/json, " + the caller's value, and the body is JSON-encoded. With files no content type is declared and the payload goes as is |
| SearchParams.URLSearchParams.constructor | frontend/src/apis/requests/merchant.requests.ts:14 | The object holds the initial pairs in order |
| SearchParams.URLSearchParams.Append | frontend/src/apis/requests/merchant.requests.ts:16 | `append` adds one pair at the end and changes nothing else |
| SearchParams.Serialize | frontend/src/apis/requests/merchant.requests.ts:19 | The query string is empty exactly when there are no pairs |
| SearchParams.Render | frontend/src/apis/requests/merchant.requests.ts:19 | The URL always starts with the path. It is the path alone exactly when there is no query object; otherwise the path is followed by "?" and the serialised query |
| SearchParams.EmptyQueryKeepsMark | frontend/src/apis/requests/socialEvent.requests.ts:29-37 | An empty query still leaves a trailing "?" |
| Endpoint.GetCall | frontend/src/apis/requests/merchant.requests.ts:23-24 | A GET call has no body and the given target |
| Endpoint.Send | frontend/src/apis/http.ts:169-175 | The call's verb selects the wrapper. The URL comes from the rendered target with no options, headers are built without files, and a body is JSON-encoded |
| MerchantRequests.MerchantPath | frontend/src/apis/requests/merchant.requests.ts:11 | The merchant path is "/api/merchants/" followed by exactly the id |
| MerchantRequests.MerchantPathInjective | frontend/src/apis/requests/merchant.requests.ts:11 | Different merchant ids give different paths |
| MerchantRequests.CreateMerchant | frontend/src/apis/requests/merchant.requests.ts:7-8 | POST to "/api/merchants" with the data as body |
| MerchantRequests.UpdateMerchant | frontend/src/apis/requests/merchant.requests.ts:10-11 | PUT to the merchant path with the data as body |
| MerchantRequests.FetchMerchants | frontend/src/apis/requests/merchant.requests.ts:13-21 | GET with no body and the query `page`, `limit` and, only when the search is non-empty, `search` |
| MerchantRequests.MerchantsQueryShape | frontend/src/apis/requests/merchant.requests.ts:14-16 | Page and limit come first and read back as the numbers given; a third pair exists exactly when the search is non-empty and holds it unchanged |
| MerchantRequests.FetchMerchant | frontend/src/apis/requests/merchant.requests.ts:23-24 | GET of the merchant path |
| MerchantRequests.RemoveMerchant | frontend/src/apis/requests/merchant.requests.ts:26-27 | DELETE of the merchant path, no body |
| MerchantRequests.ToggleMerchantActiveStatus | frontend/src/apis/requests/merchant.requests.ts:29-32 | POST to ".../toggle-status" with `{isActive: status}` |
| MerchantRequests.ToggleMerchantVerifiedStatus | frontend/src/apis/requests/merchant.requests.ts:34-37 | PUT to ".../verified-toggler" with `{isVerified: status}` |
| MerchantRequests.ToggleMerchantOnlineStatus | frontend/src/apis/requests/merchant.requests.ts:39-42 | PUT to ".../online-toggler" with `{isOnline: status}` |
| MerchantRequests.ToggleFeaturedMerchant | frontend/src/apis/requests/merchant.requests.ts:44-47 | PUT to ".../featured-toggler" with `{isFeatured: status}` |
| MerchantRequests.AddCategoryToMerchant | frontend/src/apis/requests/merchant.requests.ts:49-53 | POST to "/api/merchant-category/add-category" with both ids, merchant first |
| MerchantRequests.GetMerchantCategory | frontend/src/apis/requests/merchant.requests.ts:55-56 | GET of "/api/merchant-category" |
| StoreLocationRequests.CreateMerchantStoreLocation | frontend/src/apis/requests/merchantStoreLocation.requests.ts:11-18 | POST to "/api/merchants/{id}/store" with the data |
| StoreLocationRequests.FetchMerchantStoreLocations | frontend/src/apis/requests/merchantStoreLocation.requests.ts:20-30 | GET of the merchant's stores with `page` and `limit`, each defaulting (1 and 10) when omitted |
| StoreLocationRequests.StoreLocationsDefaults | frontend/src/apis/requests/merchantStoreLocation.requests.ts:22-25 | The two query values read back as the given or default numbers; no arguments give "page=1", "limit=10" |
| StoreLocationRequests.FetchMerchantStoreLocation | frontend/src/apis/requests/merchantStoreLocation.requests.ts:32-35 | GET of "/api/merchants/stores/{id}" |
| StoreLocationRequests.RemoveMerchantStoreLocation | frontend/src/apis/requests/merchantStoreLocation.requests.ts:37-40 | DELETE of "/api/merchants/store/{id}" |
| StoreLocationRequests.FetchAndRemoveDiffer | frontend/src/apis/requests/merchantStoreLocation.requests.ts:32-40 | Fetching a store ("stores/") and removing one ("store/") never use the same path, whatever the ids |
| StoreLocationRequests.ToggleMerchantStoreLocationActiveStatus | frontend/src/apis/requests/merchantStoreLocation.requests.ts:42-48 | PUT to ".../stores/{id}/active-toggler" with `{isActive: status}` |
| StoreLocationRequests.ToggleMerchantStoreLocationVerifiedStatus | frontend/src/apis/requests/merchantStoreLocation.requests.ts:50-56 | PUT to ".../stores/{id}/verified-toggler" with `{isVerified: status}` |
| SocialEventRequests.CreateSocialEvent | frontend/src/apis/requests/socialEvent.requests.ts:12-13 | POST to "/api/social-events" with the data |
| SocialEventRequests.FetchSocialEvent | frontend/src/apis/requests/socialEvent.requests.ts:15-21 | GET of "/api/social-events" with `page` and `limit` |
| SocialEventRequests.FetchSocialEventTransactions | frontend/src/apis/requests/socialEvent.requests.ts:23-38 | GET of ".../{eventId}/transactions" with the query of the defined filters only, in the order page, limit, isValid |
| SocialEventRequests.TransactionsQueryKeys | frontend/src/apis/requests/socialEvent.requests.ts:31-33 | The query's names are exactly the defined filters, in order. `isValid=false` is kept (it is defined), and no filters give no pairs |
| SocialEventRequests.TransactionsQueryValues | frontend/src/apis/requests/socialEvent.requests.ts:31-33 | Each defined filter reads back from its pair: the page first, then the limit (first when no page is given, second otherwise), and `isValid` as the last pair, printed as "true" or "false" |
| SocialEventRequests.TransactionsBarePath | frontend/src/apis/requests/socialEvent.requests.ts:29-37 | With no filters the URL ends in "transactions?" |
| SocialEventRequests.ToggleSocialEventTransactionActiveStatus | frontend/src/apis/requests/socialEvent.requests.ts:40-46 | PATCH to ".../transactions/{id}/mark-as-valid" with `{isValid}` |
| SubjectRequests.OffsetQuery | frontend/src/apis/requests/subjects.requests.ts:8 | The query is `page_offset` then `limit`, using the pagination's offset parameter name |
| SubjectRequests.CreateSubject | frontend/src/apis/requests/subjects.requests.ts:4-5 | POST to "/v1/api/subject/create/" with the whole input |
| SubjectRequests.FetchSubjects | frontend/src/apis/requests/subjects.requests.ts:7-13 | GET of "/v1/api/subject/" with the offset query |
| SubjectRequests.UpdateSubject | frontend/src/apis/requests/subjects.requests.ts:15-18 | PUT to "/v1/api/subject/{_id}/update/" with only the name |
| SubjectRequests.RemoveSubject | frontend/src/apis/requests/subjects.requests.ts:20-21 | DELETE of "/v1/api/subject/{id}/delete/" |
| SubjectRequests.CreateTopic | frontend/src/apis/requests/subjects.requests.ts:23-24 | POST to "/v1/api/subject/{subject}/topic/create/" with the input |
| SubjectRequests.FetchTopics | frontend/src/apis/requests/subjects.requests.ts:26-32 | GET of "/v1/api/subject/{subject}/topics/" with the offset query |
| SubjectRequests.UpdateTopic | frontend/src/apis/requests/subjects.requests.ts:34-37 | PUT to "/v1/api/subject/topic/{_id}/update/" with only the name |
| SubjectRequests.RemoveTopic | frontend/src/apis/requests/subjects.requests.ts:39-40 | DELETE of "/v1/api/subject/topic/{id}/delete/" |
| SubjectRequests.UpdateBodyIgnoresId | frontend/src/apis/requests/subjects.requests.ts:15-18 | The update body depends on the name alone; the id only selects the path, and distinct ids give distinct paths |
| SubjectRequests.SubjectsPageRoundTrip | frontend/src/apis/requests/subjects.requests.ts:7-8 | Page `k` sent as offset `k * size` reads back as that offset and size, and the backend then reports index `k` |
| Pagination.CeilDiv | core/api/pagination.py:8 | `math.ceil(a / b)` as an exact integer: the least q with q * b >= a |
| Pagination.CeilDivUnique | core/api/pagination.py:8 | Any q with (q - 1) * b < a <= q * b is the ceiling of a / b |
| Pagination.PageInfoOf | core/api/pagination.py:7-15 | The block echoes limit, offset and count. `next` (= offset + limit < count) exists exactly when count > offset + limit. `previous` (= offset - limit >= 0) exists exactly when offset >= limit. Pages and index are the exact ceilings of count/limit and offset/limit |
| Pagination.PageInfoJson | core/api/pagination.py:7-15 | The dictionary has the keys index, next, previous, limit, offset, count, pages, in that order |
| Pagination.PageInfoJsonValues | core/api/pagination.py:7-15 | Each of the seven keys reads back its field of the page information: index, next and previous (None when absent), limit, offset, count and pages |
| Pagination.GetPaginatedResponse | core/api/pagination.py:6-16 | A list argument, such as `advanced_search` would pass if called, raises TypeError. For a dictionary: a missing `data` key raises KeyError and a non-dictionary `data` raises TypeError, with the dictionary unchanged. Otherwise the same dictionary is returned, updated in place as `WithPagination` says |
| Pagination.NothingElseChanges | core/api/pagination.py:7 | Only `data["data"]["pagination"]` changes; every other inner key and every sibling of `data` keeps its value |
| Pagination.KeysAfterInsert | core/api/pagination.py:7 | The outer keys are unchanged and unique keys stay unique |
| Pagination.IndexRoundTrip | core/api/pagination.py:8 | The offset `k * limit` gives index `k` |
| Pagination.CeilDivMonotone | core/api/pagination.py:8-14 | A larger offset or count never gives a smaller index or page count |
| Pagination.IndexWithinPages | core/api/pagination.py:8-14 | For an offset within the count, 0 <= index <= pages |
| Pagination.NeighboursTwoPagesApart | core/api/pagination.py:9-10 | When both exist, `next` and `previous` are 2 * limit apart, with the offset strictly between them |
| Pagination.NoPreviousInsideFirstPage | core/api/pagination.py:8-10 | An offset inside the first page has no `previous` but index 1 |
| Pagination.SmallPaginationFirstPage | core/api/pagination.py:19-22 | With `SmallPagination`'s defaults the first page has index 0, no `previous`, a `next` exactly when count > 10, and ceil(count / 10) pages |
| Display.NonEmptyParts | frontend/src/utils/index.ts:8-9 | The filter keeps only non-empty strings, keeps every non-empty part, and keeps none exactly when every part is empty or missing |
| Display.NonEmptyPartsFrom | frontend/src/utils/index.ts:8-9 | Every kept string is one of the given parts |
| Display.NonEmptyPartsConcat | frontend/src/utils/index.ts:8-9 | The filter works part by part: filtering a concatenation is the concatenation of the filtered halves, so order is kept |
| Display.NonEmptyPartsSingle | frontend/src/utils/index.ts:9 | One part is kept exactly when it is present and non-empty |
| Display.NonEmptyPartsTriple | frontend/src/utils/index.ts:8-9 | The filter of first, middle and last is the kept first part, then the kept middle, then the kept last |
| Display.NonEmptyPartsPair | frontend/src/utils/index.ts:18-19 | The country code and the number are kept, in that order, when non-empty |
| Display.JoinLength | frontend/src/utils/index.ts:10 | The joined text is the parts' characters plus one space between each neighbouring pair |
| Display.JoinEmptyIff | frontend/src/utils/index.ts:10-12 | A join of non-empty parts is empty exactly when there are none |
| Display.JoinPresent | frontend/src/utils/index.ts:8-12 | `undefined` exactly when every part is empty; otherwise the non-empty join |
| Display.NormalizeName | frontend/src/utils/index.ts:5-13 | A missing name gives "". `undefined` exactly when first, middle and last are all empty. Otherwise the kept first, middle and last parts, in that order, joined by single spaces |
| Display.NormalizeContact | frontend/src/utils/index.ts:15-23 | A missing contact gives "". `undefined` exactly when both parts are empty. Otherwise code + " " + number, or the one non-empty part alone |
| Display.Split | frontend/src/utils/index.ts:10 | The inverse reading of the join: the pieces between spaces, always at least one |
| Display.SplitNoSpace | frontend/src/utils/index.ts:10 | A space-free prefix becomes part of the first piece |
| Display.SplitJoinRoundTrip | frontend/src/utils/index.ts:10 | Splitting a join of space-free parts at spaces gives back exactly the parts |
| Display.NameSplitsBack | frontend/src/utils/index.ts:8-12 | A displayed name with space-free parts splits back into its kept first, middle and last parts, in that order |
| Accounts.CreateUser | core/models.py:33-43 | Fails exactly when the email is missing or empty, raising ValueError "The Email must be set". Otherwise the result holds the normalised email, the password and the extra fields unchanged. `email` and `password` never reach `**extra_fields`, because Python binds them to their own parameters |
| Accounts.SetDefault | core/models.py:49-52 | `setdefault` adds the value only for a missing key and keeps every existing entry |
| Accounts.SuperuserFieldsFacts | core/models.py:49-52 | Each of the four flags is the caller's value or, if missing, True. Every other field is kept, and no other key is added |
| Accounts.CreateSuperuser | core/models.py:45-61 | Fails exactly when a flag check fails or the email is missing or empty. The first failing check is reported (is_staff, then is_admin, then is_superuser), then the email check. With the flags accepted the result is `create_user` on the defaulted fields |
| Accounts.UserOf | core/models.py:40 | The model constructor called with the email and the extra fields: the email is the normalised one, and each flag passed as a keyword argument is stored as given. A flag not passed takes its field default, declared at core/models.py:79-82: is_active True, is_staff, is_admin and is_superuser False |
| Accounts.HasPermIgnoresRequest | core/models.py:96-99 | `has_perm` depends on the user only, and is True exactly when `is_admin` is True |
| Accounts.HasModulePerms | core/models.py:101-104 | `has_module_perms` is always true |
| Accounts.PlainUserHasNoPerm | core/models.py:96-99 | A user created without flags has `has_perm` False |
| Accounts.SuperuserHasEveryPerm | core/models.py:49-61 | A created superuser is staff, admin and superuser, and `has_perm` is True for every permission |
| Accounts.InactiveSuperuserAccepted | core/models.py:52-59 | `is_active` is defaulted but never checked, so an inactive superuser is accepted |
| Accounts.TruthyIsNotTrue | core/models.py:54-59 | The checks test identity with True, so a truthy 1 or "True" is refused |

## Left out

- The network call, `await`, and the JSON parsing of responses are not modelled.
  A response body that is not JSON fails in `result.json()` before the status
  check.
- The cookie read is not modelled; the token is a parameter.
- The build-time environment variable is not modelled as a read; it is a parameter.
- `JSON.stringify` is not modelled: the JSON-encoded body is a tag over the
  payload.
- Percent-encoding of query values is not modelled: `URLSearchParams` encoding is
  a function parameter.
- Header iteration order: the caller's headers are iterated in insertion order.
  That is the order kept by the whatwg-fetch polyfill, which `isomorphic-fetch`
  installs only in a browser with no native `fetch`. A native `Headers` object,
  and node-fetch on the server, iterate sorted by name; the model does not
  capture that order.
- FetchHeaders.Combined: appending to a header whose value is empty gives
  ", " + value, as the Fetch Standard combines values. The whatwg-fetch
  polyfill's `oldValue ? oldValue + ', ' + value : value` gives the value alone
  in that case; the model does not capture that difference.
- Header value normalisation is not modelled: no whitespace trimming and no name
  validation. Such errors would be thrown by `Headers.append`.
- Decimal.IntToString: does not model JavaScript's exponent form for magnitudes of
  1e21 and above, or non-integral numbers. Page, limit and offset are modelled as
  integers.
- Pagination.CeilDiv: uses exact division. Python's float division `offset / limit`
  agrees with it below 2^53; larger values are not modelled.
- Pagination.GetPaginatedResponse: the dictionary under `data` is modelled as a
  value, so aliasing of it with other references is not captured. A list
  argument is modelled only by its failure.
- Pagination.PageInfoOf: requires limit >= 1 and non-negative offset and count.
  Django REST framework's `get_limit`/`get_offset` parse and clamp the query
  before this point, and that parsing is not modelled.
- Accounts.CreateUser: `normalize_email` is a function parameter. Password hashing
  (`set_password`) and the database save are not modelled. The result is the
  record passed to the model constructor. Keyword arguments unknown to the model
  are not rejected. The precondition that `email` and `password` are absent from
  the extra fields is what Python's argument binding guarantees.
- Http.HandleError: the response's `message` is modelled as an optional string.
  A non-string message, such as a number, is not modelled.
- The `ApiResponseError` stack trace is not modelled, and neither is the `Error`
  prototype chain.
- The react-query hooks, the pages and components that call these builders, the
  other request files, and the remaining Django views and models are not part of
  this model.
