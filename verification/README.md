# Zoho Desk client core, modelled in Dafny

This project models the core of a small Python client for the Zoho Desk REST API:

- The client object holds OAuth credentials loaded from a JSON file, and request headers derived from them. It also keeps an in-memory log of every request.
- Every API call first runs a token guard. The guard refreshes the access token when it has expired, and writes the new credentials back to the file.
- A call is then made (GET, POST or PUT) and logged. GET returns `(status, content)`. POST and PUT return the status alone.
- List endpoints are read with offset pagination over `from`/`limit`. Pagination stops on a short page, on a 204 or 4xx/5xx reply, or when an optional results limit is reached.
- Comment text has its `zsu[@user:<zuid>]zsu` mention tags replaced by the mentioned agents' names.

The model is purely functional:

- A client is an immutable `Session.Client`. Its credentials, headers, log and the `persisted` copy of the file are plain fields.
- Every operation on a client that can raise returns a `Run<T>`, or, for pagination, a `Paginator.Outcome` that also carries the query as the call leaves it (a single page turn gives a `Paginator.Turned`). A `Run` pairs an `Ok`/`Err` result with the client as it stands afterwards. So effects made before an exception stay visible, as they do in Python.
- The clock, the identity provider's token endpoint and the resource server are parameters: a time `now`, a function from token requests to reply bodies, and a reply per request.
- JSON values are the `Json.Json` datatype. A reply body is either parsed JSON or unparsable.
- Pagination's `while True` is bounded by a `fuel` argument. Running out of fuel is a separate outcome, so that non-termination itself can be stated and proved.

Modules:

- `Results`: the `Option`, `Result` and `Error` types.
- `Json`: JSON values and reply bodies.
- `Text`: `str.replace` stated over split and join.
- `Session`: credentials, headers, URLs and queries, log entries, and the client.
- `CredentialStore`: the constructor, and the credentials file as JSON.
- `Tokens`: the expiry test, the refresh, and `check_token`.
- `Executor`: `_base_api_call`.
- `Paginator`: `_paginate`.
- `Mentions`: `_replace_mention_tags`.

A client is *synchronised* (`Session.Synced`) when three things agree: its headers carry the current token and organisation, the credentials are the persisted file, and the token is a string. The constructor establishes this. The model's token guard uses the corrected refresh (see Findings), and with it every call and every pagination preserve synchronisation. The guard as written does not: a reply with a null token leaves the client out of step (`Tokens.CheckTokenAsWrittenDesynchronises`).

## Model

| member | source | states |
|---|---|---|
| CredentialStore.FromJson | zoho.py:22-30 | Reading succeeds exactly when the file is an object holding all seven keys and its `expiry_time` is an integer. Every other value is taken as it is, whatever its type. Every field the client stores has exactly the value found in the file under its key. |
| CredentialStore.Open | zoho.py:14-40 | Construction succeeds exactly when the file's credentials can be read and the access token is a string. The new client starts with an empty log and is synchronised. |
| CredentialStore.CredsRoundTrip | zoho.py:22-30 | Reading back the dumped credentials gives the same credentials. |
| CredentialStore.ReopenRestoresClient | zoho.py:14-40 | A synchronised client that is re-created from its persisted file has the same credentials and headers, and an empty log. |
| Tokens.AccessTokenIn | zoho.py:60-66 | Succeeds exactly when the reply decodes and holds an `access_token` field, and yields that field. |
| Tokens.GrantedToken | zoho.py:60-74 | A token is granted exactly when the reply decodes to an object whose `access_token` is a string, the only kind line 74 can concatenate into the header. The granted token is that string. |
| Tokens.RefreshAsWrittenIsNotAtomic | zoho.py:69-79 | As written, a reply with a null token leaves a synchronised client with the null token and the expiry now + 3570 s in memory, every other credential unchanged. The header, the file and the log stay old, since the raise at line 74 comes before the dump at lines 78-79. The client is no longer synchronised. |
| Tokens.Refresh | zoho.py:45-81 | Corrected refresh: it succeeds exactly when a string token is granted. On success the client gets the new token, an expiry one hour minus 30 s ahead, a matching Authorization header and a rewritten file. Nothing else changes. On failure the client is untouched. |
| Tokens.RefreshAgreesWithSourceOnStringTokens | zoho.py:62-75 | The corrected refresh equals the as-written one whenever the reply's token, if present, is a string. |
| Tokens.RefreshSynchronises | zoho.py:69-79 | A successful refresh leaves the client synchronised, with a token that has not expired. |
| Tokens.CheckToken | zoho.py:42-92 | A live token passes with the client unchanged. An expired one (expiry <= now) is refreshed. Success leaves a live token, and failure leaves the client unchanged. |
| Tokens.CheckTokenAgreesWithSourceOnStringTokens | zoho.py:84-92 | The model's guard equals the guard as written whenever the reply's token, if present, is a string. |
| Tokens.CheckTokenAsWrittenDesynchronises | zoho.py:84-92 | As written, an expired token and a reply with a null token make the guard raise and leave a synchronised client out of step. The model's guard raises with the client as it was. |
| Tokens.CheckTokenKeepsSynced | zoho.py:84-92 | The guard keeps a synchronised client synchronised and never touches the log. |
| Executor.BaseApiCall | zoho.py:94-129 | A call returns exactly when three things hold: the guard passes, the verb is GET, POST or PUT, and a GET 200 body is a JSON object. A returning call appends exactly one entry (time, verb, URL, payload, status, count) and keeps all earlier entries. A raising call appends nothing. Apart from the log, the client after the call is exactly the client the guard left: the call's only other effect is the guard's refresh. |
| Executor.GetReturnsAndLogs | zoho.py:99-127 | GET returns `(status, content)`. A non-200 reply gives no content and logs count 0, the value `count` starts with at line 99. A 200 reply gives the decoded body and logs its `count`, or null when that is absent. |
| Executor.WriteReturnsStatus | zoho.py:112-129 | POST and PUT return the bare status and log count 0. |
| Executor.CallKeepsSynced | zoho.py:94-122 | Any call keeps a synchronised client synchronised. |
| Executor.ServerErrorScenario | zoho.py:103-110 | A GET answered with HTTP 500 returns `(500, None)` and appends exactly one entry with count 0. |
| Paginator.DataOf | zoho.py:146-156 | A page yields items exactly when its content is an object whose `data` is a list or a string. A list gives its elements, and a string gives its characters, as `items.extend` and `len` see them. |
| Paginator.PageStepDecides | zoho.py:146-167 | 204 and 400-599 end the loop and add nothing. A page whose data is neither a list nor a string raises. A 200 page adds its data. A page at or above the threshold advances `from` and `items_requested` by `limit`. The loop continues exactly after a full page that leaves `items_requested` below the results limit. |
| Paginator.PageUrlsAreOffsets | zoho.py:139-160 | The i-th page request is for offset `from + i*limit`, with the same `limit` and the same other query keys. |
| Paginator.OffsetIsLinear | zoho.py:158-160 | Advancing the offset by `limit` i times gives `from + i*limit`. |
| Paginator.PaginationReturns | zoho.py:132-170 | On a normal return, `from` is reset to 0 while `limit` (default 100) and the other keys are kept. The log only grew, with at least one request. The items are the data of the 200 pages at the requested offsets, in order. |
| Paginator.PaginationRequests | zoho.py:139-144 | On a normal return, the new log entries are exactly the page URLs at `from`, `from+limit`, ..., one per request, in order. |
| Paginator.PaginationFullPages | zoho.py:156-160 | On a normal return, every page before the last had at least the threshold number of items. |
| Paginator.PaginationLastPageEnds | zoho.py:146-167 | On a normal return after n requests, the last page, at offset `from + (n-1)*limit`, ended the loop: a 204 or 400-599 reply, a page below the threshold, or n*limit items requested reaching the results limit. |
| Paginator.DriveDoneStops | zoho.py:146-167 | For any page-turning function that keeps the page-decision rules, on a finished loop every page before the last had at least the threshold number of items, and the last page stopped it: a 204 or 400-599 reply, a short page, or the results limit reached. |
| Paginator.PaginationFails | zoho.py:132-170 | When pagination raises, the caller's query keeps `limit` and the other keys but is left with a `from` offset. The log only grew. |
| Paginator.PaginationKeepsSynced | zoho.py:132-170 | Pagination keeps a synchronised client synchronised, however it ends. |
| Paginator.PaginationTerminatesUnderResultsLimit | zoho.py:163-167 | With a positive `limit` and a results limit r, the loop ends within any bound of n >= 1 turns with n*limit >= r. |
| Paginator.TurnOnDataPage | zoho.py:141-167 | With a live token, a data page is kept whole and logs one entry. A full page advances the cursor by `limit`, and a short page leaves it. The loop continues exactly after a full page below the results limit. |
| Paginator.PaginationNeverEndsWithoutResultsLimit | zoho.py:139-160 | Without a results limit, a server that always has a full page keeps the loop going for ever. |
| Paginator.ResultsLimitStopsAfterTwoPages | zoho.py:135-167 | With the default limit 100 and a results limit of 150, a server of full pages is read for exactly two pages, 200 items, and the query's `from` is reset to 0. |
| Paginator.SmallLimitFetchesOnePage | zoho.py:156 | As written, with `limit` below 100 and pages of at most `limit` items, pagination ends after at most one request. |
| Paginator.LimitSizedPage | zoho.py:156-160 | With a live token and no results limit, the corrected loop goes on past a data page of exactly `limit` items. As written, the loop stops on that page whenever `limit` is below 100. |
| Paginator.HistoryStopsAfterFirstPage | zoho.py:354-357 | As written (short page below a literal 100, line 156), the ticket history listing (limit 50) returns only the first 50 of 70 entries. |
| Paginator.HistoryCorrectedReadsAll | zoho.py:354-357 | With the short-page test of line 156 made against `limit`, the same listing reads both pages and returns all 70 entries. |
| Mentions.Tag | zoho.py:245 | The tag is 14 characters longer than the zuid and holds the zuid after `zsu[@user:`. |
| Mentions.ApplyMention | zoho.py:243-247 | A mention without a readable `type` raises, and a non-agent mention changes nothing. For an agent, the pass succeeds exactly when `zuid`, `firstName`, `lastName` and the text are strings. The result is the text split at every tag and joined with "first last". |
| Mentions.ApplyMentions | zoho.py:242-247 | The loop succeeds only if every mention has a `type`. Without agent mentions, it leaves the text as it is. |
| Mentions.Visited | zoho.py:242-243 | A list visits its elements, and an empty string or object visits nothing. A non-empty string or object, a number or a boolean raises. |
| Mentions.ReplaceMentionTags | zoho.py:240-248 | The call needs an object with `content`. A null or absent `mention` returns the text unchanged. A mention list returns the text after the loop. |
| Mentions.OnlyAgentsMatter | zoho.py:243-247 | When every mention has a `type`, applying only the agent mentions gives the same result. |
| Mentions.ApplyMentionsSplits | zoho.py:242-247 | The loop over `a + b` is the loop over `a`, followed by the loop over `b` on its result. |
| Mentions.AbsentTagLeavesText | zoho.py:245-247 | An agent whose tag does not occur in the text leaves the text unchanged. |
| Mentions.ResolvesOneTag | zoho.py:240-248 | `zsu[@user:7]zsu hi` with agent 7, Ada L, becomes `Ada L hi`. |
| Text.JoinSplit | zoho.py:247 | Splitting at a non-empty pattern and joining with that same pattern restores the string. |
| Text.SplitPiecesAreClean | zoho.py:247 | No piece of a split contains the pattern. |
| Text.ReplaceIsJoinOfSplit | zoho.py:247 | Replacing every occurrence is splitting at the pattern and joining with the replacement. |
| Text.ReplaceAbsent | zoho.py:247 | Replacing a pattern that does not occur changes nothing. |

## Left out

- The HTTP requests, the file read in the constructor and the file write after a refresh are not performed. The server, the identity provider and the file become parameters and fields: `Executor.Env`, `Paginator.World` and `Client.persisted`.
- `print`, `time.sleep(5)` after a refresh, and the `datetime.now().isoformat()` text of log timestamps are left out. Times are integer seconds supplied by the caller; the source's `time.time()` is a float.
- `urlencode` is not modelled as text. A request URL is the endpoint plus a structured `Query` (`from`, `limit`, other keys), so two URLs are equal exactly when their parts are.
- The refresh request's HTTP status and headers are not modelled. Only the decoded body matters to the source.
- Error kinds are coarse. The model keeps which operation raised, not the exact Python exception class or message.
- `int()` on the file's `expiry_time` and on the query's `from`/`limit` is not modelled. The model takes them as integers, so an integer string in the file is rejected here, although Python would accept it.
- `_paginate`'s `query={}` default is a dict shared across calls. The model gives each call the caller's query and returns the query as the call leaves it (`Outcome.query`). It does not model the sharing between calls.
- A 200 page whose body is a bare JSON list never reaches `_paginate`'s `isinstance(content, list)` branch. `_base_api_call` already raises on `content.get("count")` for such a body, and the model raises there too.
- The fuel argument bounds `while True`. An `OutOfFuel` outcome means only that the loop did not finish within that many turns.
- Tokens.CheckToken: uses the corrected refresh, so an expired token and a reply whose token is not a string give an error with the client unchanged. The source's guard keeps the new token value and expiry (zoho.py:69-70). The two guards are equal whenever the token is a string (`Tokens.CheckTokenAgreesWithSourceOnStringTokens`). `Executor.BaseApiCall` and pagination call this guard.
- Tokens.CheckTokenKeepsSynced: holds for the corrected guard only. The guard as written loses synchronisation on a non-string token (`Tokens.CheckTokenAsWrittenDesynchronises`). It is equal to the source whenever the token is a string (`Tokens.CheckTokenAgreesWithSourceOnStringTokens`).
- Executor.CallKeepsSynced: holds through the corrected guard only. With the source's guard, a call that refreshes to a non-string token raises and leaves the client out of step. It is equal to the source whenever the token is a string (`Tokens.CheckTokenAgreesWithSourceOnStringTokens`).
- Paginator.PaginationKeepsSynced: holds through the corrected guard only, as for `Executor.CallKeepsSynced`. It is equal to the source whenever every refresh grants a string token (`Tokens.CheckTokenAgreesWithSourceOnStringTokens`).
- Paginator.DataOf: a `data` that is a JSON object is refused. The source would extend the items with its keys in insertion order, and `len` would count them. The model's JSON objects are unordered maps, so that order cannot be represented.
- Paginator.PageStepDecides: inherits the same gap: a page whose `data` is an object raises here, while the source adds its keys and goes on.
- CredentialStore.Open: a non-string `org_id` is stored into the headers as it is. The HTTP library would reject such a header only when a request is sent, and that check is not modelled.
- Paginator.PaginationFails: states only that `from` is present in the returned query, not its value (the offset of the page that raised).
- The domain wrappers (tickets, tasks, comments, threads, conversations, recycle bin, attachments and their downloads), the CSV export of logs and conversations, and `get_convo_details` are left out. They are thin endpoint builders over the modelled core.
- The helper module `zoho_helpers.py` is not part of this model.
- Concurrency is left out: the client is not thread-safe, and the model is sequential.
- Python's `dict` ordering, `json.dump` formatting (indent 4) and the exact header dictionary shape are left out.

## Findings

| source | as written | input that shows it | evidently intended | confidence | as-written member | corrected member |
|---|---|---|---|---|---|---|
| zoho.py:69-75 | The new token and expiry are stored before the Authorization header is built, and the header concatenation raises for a non-string token. | A refresh reply `{"access_token": null}` | A refresh either applies every effect (token, expiry, header, file) or none. | not executed | Tokens.RefreshAsWrittenIsNotAtomic | Tokens.Refresh |
| zoho.py:156 | A page counts as the last when it has fewer than a literal 100 items, whatever `limit` was requested. | `get_ticket_history` (lines 354-357) with `limit` 50 on a ticket of 70 history entries: the first page has 50 items, so the loop stops. | A page is the last when it has fewer items than the requested `limit`. | not executed | Paginator.HistoryStopsAfterFirstPage | Paginator.HistoryCorrectedReadsAll |
