# Cook job client, modelled in Dafny

This project models the request-shaping and response-interpreting core of a
Python client for the Cook scheduler's REST API, and proves properties of it.
The client submits batch jobs, queries and deletes them, asks for retries,
lists a user's jobs and waits for jobs to complete. It has two generations:

- `cook/jobclient.py` is the newer `JobClient`. It validates job descriptions
  against a field table and fills in ids and defaults. It cuts id lists into
  batched `/rawscheduler` paths and raises `JobClientError` on HTTP errors.
- `cook/__init__.py` is the older `JobClient`. It takes keyword arguments and
  never raises for an HTTP status. Instead it turns each response into a reply
  record whose status is OK, ERROR or UNKNOWN.
- `cook/utils.py` holds `generate_batch_request`. This is the partitioner that
  cuts an id list into slices of `job=<id>` parameters.

The model is split into modules:

- `Common`: results carrying the Python exception kinds, `sep.join`,
  clamped slicing, decimal rendering of integers, and `list.remove`.
- `Values`: JSON-like values, which tell a Python 2 `int` from a `long`, job descriptions as maps, job records, and the
  caller's list of ids.
- `Http`: the transport as an oracle. A `Server` object logs every request,
  and the answer to the n-th request is `respond(n, request)`. Answers can
  therefore change over time, which a polling loop needs.
- `Batching`: `generate_batch_request`, as a loop. It is proved equal to a
  recursive reference partition. The older client's private `__batch_request`
  (cook/__init__.py:79-86) is the same loop over the configured batch size, so
  both clients build their paths with it.
- `SchedulerPaths`: the query and delete paths that both clients build.
- `JobSchema`: the newer client's field table.
- `Polling`: the per-poll body of both `wait` loops: the walk over the
  returned records that yields completed jobs and removes their ids.
- `Waiting`: the `wait` loop as a reference function `WaitOf` of any poll.
  It also holds lemmas that carry a property of every poll over a whole run.
  Each client proves that its poll has those properties.
- `Client`: the newer client.
- `Legacy`: the older client.

Methods that change state are stated against the request log and the
caller's objects:

- requests are appended to `server.log`;
- a caller's job array is prepared in place;
- the caller's list of ids (`Values.IdList`) has its items removed.

Id generation (`uuid1`) is a parameter `freshId: nat -> string`: job `i`
gets `freshId(i)`. UUID parsing is a parameter `isUuid: string -> bool`.

## Model

| member | source | states |
|---|---|---|
| Batching.GenerateBatchRequest | cook/utils.py:1-17 | The loop's result equals the reference partition of the ids into slices of `batch_size`, each rendered as `job=<id>`. A zero step raises `ValueError`, as Python's `range` does. A negative step gives no slices. |
| Batching.BatchCount | cook/utils.py:12-17 | There are exactly ceil(len/n) slices. The slice list is empty if and only if the id list is empty. |
| Batching.BatchChunkAt | cook/utils.py:13-15 | Slice k holds `job=<id>` for the ids `ids[k*n:(k+1)*n]`, in order. Its start lies inside the list. |
| Batching.BatchSizes | cook/utils.py:13-14 | Every slice has between 1 and n entries. Every slice but the last has exactly n. |
| Batching.BatchFlatten | cook/utils.py:13-15 | Concatenating the slices gives `job=<id>` for every id, in the original order. |
| Batching.ThirtyInFours | tests/test_jobclient.py:39-58 | 30 ids in slices of 4 give 8 slices. The first seven have 4 entries and the last has 2. |
| SchedulerPaths.RequestPaths | cook/jobclient.py:193-200 | The computed paths equal `PathsFor`. One id gives the direct path. An empty list raises `IndexError` at `jobs[0]`. Two or more ids give one batched path per slice. |
| SchedulerPaths.BatchedPaths | cook/jobclient.py:222-229 | For two or more ids and a positive size there are ceil(len/n) paths. Path k is `/rawscheduler?` followed by `job=<id>` for slice k's ids, joined with `&`. |
| SchedulerPaths.BatchedPathsCoverIds | cook/__init__.py:97-103 | The batched paths carry every id exactly once, in order. |
| SchedulerPaths.SinglePathIsBatchPath | cook/jobclient.py:199-200 | For one id, the direct path is the path batching would have built. |
| JobSchema.Truncate | cook/jobclient.py:23 | `int()` of a float truncates toward zero. The result is an integer within 1 of the float, on the side of zero. |
| JobSchema.ValidJobNumbers | cook/jobclient.py:23-30 | A valid job has an integer-coercible `max_retries` > 0. Its `priority`, if present, is in 0..100. Its `cpus` is a positive number. Its `ports` is a non-negative `int` within `sys.maxint`, not a `long`. |
| JobSchema.PriorityRange | cook/jobclient.py:23 | A job with `priority` p passes if and only if 0 <= p <= 100. |
| JobSchema.MaxRetriesRequired | cook/jobclient.py:24 | A job without `max_retries` never passes. |
| JobSchema.MaxRetriesPositive | cook/jobclient.py:24 | A job holding only `max_retries` n passes if and only if n > 0. |
| JobSchema.AddFieldIff | cook/jobclient.py:19-37 | Adding a field other than `max_retries` to a valid job keeps it valid if and only if the table's rule for that key accepts the value. |
| JobSchema.ValidJobsAppend | cook/jobclient.py:19-37 | The schema is a list schema: a list of jobs passes if and only if each of its two parts passes. |
| JobSchema.LongWhereIntDemanded | cook/jobclient.py:28-31 | `cpus`, `mem` and `ports` demand an `int`. A Python 2 `long` there, or an integer beyond `sys.maxint`, makes the job fail whatever its value. |
| JobSchema.LongCoerced | cook/jobclient.py:24 | `Use(int)` converts a `long` as it does an `int`: a job with only `max_retries` given as a `long` n passes if and only if n > 0. |
| JobSchema.UnknownKeyRefused | cook/jobclient.py:19-37 | A key outside the table makes the job invalid. |
| Client.Configure | cook/jobclient.py:53-85 | Construction succeeds if and only if the auth kind is basic auth with both a user and a password, or Kerberos. A missing user or password raises `AssertionError`. Any other kind raises `ValueError`. Basic auth stores the (user, password) pair. The URL, batch size, intervals and default job settings are kept. |
| Client.UrlAloneIsRefused | tests/test_jobclient.py:20-22 | A client given only a URL is refused with `AssertionError`. |
| Client.PrepareJob | cook/jobclient.py:252-258 | The prepared job always has a `uuid`. An existing `uuid` is kept, otherwise the fresh id is used. Every default key is present. The job's own values win. A default is used only where the job has no value. |
| Client.PrepareAll | cook/jobclient.py:252-258 | Every job of the list is prepared, in order and with the same length. |
| Client.SubmittedUuids | cook/jobclient.py:264 | After validation, the returned ids follow the input order and have the input's length. Each is the job's own id or the generated one, and is a string that parses as a UUID. |
| Client.DefaultsCompleteJob | cook/jobclient.py:258-260 | A job whose fields pass and which lacks only `max_retries` passes validation once a valid default supplies it. |
| Client.PreparedValidMeansJobFieldsValid | cook/jobclient.py:258-260 | Defaults never hide a bad field. If the prepared job passes, every field the caller wrote passes on its own. |
| Client.RetryPathCarriesCount | cook/jobclient.py:284 | The retry path is `/retry?job=<id>&retries=<n>`, and the count n can be parsed back from its tail. |
| Client.ListParamsRecoverable | cook/jobclient.py:304-317 | The `/list` query starts with `user=<u>`. State, start, stop and limit can each be read back. Each is present exactly when truthy. A list of states is joined with `%2B`. |
| Client.JobClient.ApiCall | cook/jobclient.py:111-168 | Requests are issued in order up to and including the first whose status is 4xx or 5xx. That one's code is raised as `JobClientError`. Otherwise every response is returned. |
| Client.JobClient.Delete | cook/jobclient.py:181-205 | An empty list raises `AssertionError` and issues nothing. Otherwise one DELETE is sent per path, stopping at the first HTTP error. The outcome is that error or success. |
| Client.JobClient.Query | cook/jobclient.py:207-237 | The log grows by the requests sent, up to the first that raises. The result is `QueryResult`: the job records of all responses concatenated in request order. An error is `AssertionError` exactly for an empty list. Otherwise the error is a `ValueError` from a zero batch size or the first HTTP error. |
| Client.JoinBodies | cook/jobclient.py:231-235 | The loop over the responses returns their record lists concatenated, in response order. |
| Client.QueryErrors | cook/jobclient.py:219-237 | `query` raises `AssertionError` exactly for an empty list. Any other exception is the `ValueError` of a zero batch size or a `JobClientError`. |
| Client.PollFacts | cook/jobclient.py:335-341 | One poll takes only `completed` records. The list left is the starting list with the taken ids removed one by one, in order. The remaining ids plus the taken ids are exactly the ids before the poll. A crash is `AssertionError` exactly when the list was empty, and is otherwise a `ValueError`. |
| Client.PollAnswers | cook/jobclient.py:335-341 | A query that raises `JobClientError` is swallowed: nothing is taken, the list is unchanged and the loop goes on. Otherwise exactly the completed records of the answer are taken, in order. If `list.remove` raises, the taken records are the completed ones before the first completed record whose id is missing. |
| Client.PollsKeep | cook/jobclient.py:335-341 | Every poll of this client has the per-poll properties that the `Waiting` lemmas carry over a whole run. |
| Client.WaitFacts | cook/jobclient.py:325-346 | A whole run yields only completed jobs. The list left is the starting list with the yielded ids removed in yield order. The remaining ids plus the yielded ids are exactly the starting ids. It ends early only by `AssertionError`, exactly when the starting list is empty, or by a `ValueError`. |
| Client.JobClient.Submit | cook/jobclient.py:239-266 | An empty list raises `AssertionError`. Otherwise every job is prepared in place. If any prepared job fails the schema, `SchemaError` is raised and no request is sent. Otherwise exactly one POST with all jobs is sent, and the jobs' `uuid` values are returned in order unless that POST fails. |
| Client.JobClient.Retry | cook/jobclient.py:268-286 | An empty list or a negative count raises `AssertionError` with no request. Otherwise one POST with body `{}` goes to `/retry?job=<id>&retries=<n>` for each id in order, stopping at the first HTTP error. |
| Client.JobClient.List | cook/jobclient.py:288-323 | Exactly one GET of the `/list` query is sent. It returns that response's records, or raises its HTTP error. |
| Client.JobClient.Wait | cook/jobclient.py:325-346 | The yielded jobs, the list left, the outcome, the number of polls and the requests logged are those of `WaitOf` for this client's poll and the scheduler's answers. Every yielded job is `completed`. The list left is the starting list with the yielded ids removed in yield order. Normal termination leaves the list empty. The bound ends the run only after exactly `maxPolls` polls, with ids still waiting. Only `AssertionError` (exactly for an empty starting list) or a `ValueError` escapes. |
| Client.JobClient.WaitBy | cook/jobclient.py:334-346 | The loop itself: after it, the yielded jobs, list, outcome, poll count and log are those of `WaitOf` for any poll that agrees with this client's. |
| Client.JobClient.Poll | cook/jobclient.py:335-341 | The records taken, the list left, the exception and the requests logged are those of `PollOf` for the scheduler's answers. Every record taken is `completed`. The list left is the old one with the taken ids removed in order. A `JobClientError` of the query is swallowed. A crash is `AssertionError` exactly when the list was empty, and is otherwise a `ValueError`. |
| Polling.TakeCompleted | cook/jobclient.py:336-339 | The loop's result is `Take` of the old list. Completed records are taken in order, and each id is removed before its job is yielded. The list left is the old one with the taken ids removed one by one. If no id is missing, exactly the completed records are taken. If one is missing, the loop stops at the first completed record whose id is not in the list. |
| Polling.TakeFacts | cook/jobclient.py:336-339 | About the reference walk `Take`, for every list and every answer: the taken records are completed. The list left is the old one with the taken ids removed in order, and the remaining plus the taken ids are the old ids. With nothing missing, exactly the completed records are taken. Otherwise the walk stopped at the first completed record whose id is gone. |
| Polling.YieldCompleted | cook/__init__.py:219-224 | The loop's result is `Yield` of the old list. Completed records are yielded in order, and each id is removed after its job. With nothing missing, exactly the completed records are yielded and their ids removed in order. A missing id stops the loop after its job has been yielded, at the first completed record whose id is gone, and that id is not in the list left. |
| Polling.YieldFacts | cook/__init__.py:219-224 | About the reference walk `Yield`: the yielded records are completed. With nothing missing, they are the completed records and their ids are removed in order. Otherwise the remaining ids plus the yielded ids exceed the starting ids by exactly the missing id. |
| Polling.YieldStop | cook/__init__.py:222-224 | When `list.remove` raises, the walk stopped at a completed record k. Everything completed up to and including k was yielded, and the list left is the old one with the ids of the completed records before k removed. |
| Polling.CompletedOf | cook/jobclient.py:337 | The records kept are all `completed`. Every completed record of the input is kept, and nothing else is. A list of completed records is kept whole. |
| Common.RemoveFirst | cook/jobclient.py:338 | Python's `list.remove(x)` when `x` is present: the first occurrence is dropped, every other item keeps its place, and the multiset shrinks by one `x`. The callers raise `ValueError` when `x` is absent. |
| Waiting.WaitShape | cook/jobclient.py:334-346 | A run makes at most `maxPolls` polls, and at least one unless the bound is 0. It ends normally only with an empty list. It runs out of polls only after exactly the bound, with ids still waiting. |
| Waiting.WaitComplete | cook/jobclient.py:334-346 | If every poll takes only completed records, so does the whole run. |
| Waiting.WaitCounts | cook/__init__.py:215-229 | If every poll accounts for its ids, the whole run does. The remaining ids plus the yielded ids are the starting ids, plus the id left unremoved when `list.remove` raised. |
| Waiting.WaitInOrder | cook/jobclient.py:334-346 | If every poll removes the taken ids in order, the whole run leaves the starting list with all yielded ids removed in yield order, unless an id was left unremoved. |
| Waiting.WaitStop | cook/__init__.py:215-229 | An id left unremoved is not in the final list, and the run ended with the `ValueError` of `list.remove`. |
| Waiting.WaitStopsOnlyUnremoved | cook/__init__.py:215-229 | A run that ends with the `ValueError` of `list.remove` has left an id unremoved. |
| Waiting.WaitRemovesAll | cook/jobclient.py:334-346 | If no poll leaves a yielded id in the list, no run does. |
| Waiting.WaitCrashes | cook/jobclient.py:334-346 | When the only exceptions of a poll are a given one (exactly for an empty list) and `ValueError`, the same holds for the run. The given exception ends it exactly when the starting list is empty and the bound allows a poll. |
| Legacy.StatusClasses | cook/__init__.py:13-16 | Each table's OK is one 2xx code: 204, 200 or 201. Every ERROR code is a 4xx for which `raise_for_status` raises. Every 5xx, and any other 2xx, is UNKNOWN. |
| Legacy.DeleteReply | cook/__init__.py:105-127 | The status follows the delete table: 204 OK, 400/403 ERROR, else UNKNOWN. `http_code` is the response code. A reason is present if and only if the status is not OK. There is never data. |
| Legacy.QueryReply | cook/__init__.py:148-175 | The status follows the query table: 200 OK, 400/403/404 ERROR, else UNKNOWN. The decoded body is the data exactly when the status is OK. The content is the reason exactly when it is not. |
| Legacy.SubmitReply | cook/__init__.py:193-213 | The status follows the submit table: 201 OK, 400/401/422 ERROR, else UNKNOWN. On OK the data is the submitted ids. Otherwise the content is the reason. |
| Legacy.OkRecordsAreOkBodies | cook/__init__.py:219-221 | `wait` sees exactly the bodies of the 200 responses, in order. |
| Legacy.InitAsWritten | cook/__init__.py:20-38 | As written: construction succeeds if and only if `url` and `auth` are given, with basic auth, a user and a password. Any other auth kind raises `NameError`. |
| Legacy.Init | cook/__init__.py:20-53 | As intended: a missing `url`, `auth`, user or password raises `ValueError`. Basic auth stores the pair and `kerberos` stores a negotiator. Any other kind raises `ValueError`. A batch size, poll interval or timeout that is given is kept; one that is not given becomes 32, 10 or 60. |
| Legacy.InitDiscrepancy | cook/__init__.py:35 | The two readings agree unless the auth kind is something other than basic auth. For Kerberos, only the corrected one succeeds. For an unsupported kind, the exception differs. |
| Legacy.KerberosConstructionFailsAsWritten | cook/__init__.py:35-36 | A URL with `auth="kerberos"` raises `NameError` as written, but builds a Kerberos client as intended. |
| Legacy.FillUuids | cook/__init__.py:188-191 | Each job gets a `uuid` if it had none. Nothing else changes. |
| Legacy.FilledUuids | cook/__init__.py:197 | The reported ids follow the input order. Each is the job's own id or the generated one, and every other field is kept. |
| Legacy.JobClient.ApiCall | cook/__init__.py:58-74 | Every request is issued, in order, whatever the earlier statuses. |
| Legacy.JobClient.Delete | cook/__init__.py:88-127 | A missing `jobs` keyword raises `ValueError`. An empty list raises `IndexError`, and a batch size of 0 with two or more ids raises the `range` `ValueError`; in both cases no request is sent. Otherwise one DELETE is sent per path, with one reply per response, in order, and each reply follows the 204/400/403 table. |
| Legacy.JobClient.Query | cook/__init__.py:129-175 | A missing `jobs` raises `ValueError`. An empty list raises `IndexError`. Otherwise one GET is sent per path, with one reply per response, in order. |
| Legacy.JobClient.Submit | cook/__init__.py:177-213 | A missing `jobs` raises `ValueError`. Otherwise ids are filled in place and exactly one POST is sent. The reply follows the submit table, with the ids as data on 201. |
| Legacy.PollFacts | cook/__init__.py:219-224 | One poll yields only `completed` records. With no id missing, the list left is the old one with the yielded ids removed in order. The remaining ids plus the yielded ids are the old ids, plus the missing one if any. A missing id is not in the list left, and is missing exactly when the poll raises `list.remove`'s `ValueError`. A crash is `IndexError` exactly for an empty list, and is otherwise a `ValueError`. |
| Legacy.PollAnswers | cook/__init__.py:219-224 | When paths can be built, the poll sends exactly the query requests. With nothing raised, it yields exactly the completed records of the 200 bodies, in order. When `list.remove` raises, the walk over those records stopped at the first completed one whose id is gone. |
| Legacy.PollsKeep | cook/__init__.py:219-224 | Every poll of this client has the per-poll properties that the `Waiting` lemmas carry over a whole run. |
| Legacy.WaitFacts | cook/__init__.py:215-229 | A whole run yields only completed jobs. With no id left unremoved, the list left is the starting list with the yielded ids removed in yield order. The remaining ids plus the yielded ids are the starting ids, plus the unremoved id. An id is left unremoved exactly when the run ends with `list.remove`'s `ValueError`. `IndexError` ends it exactly for an empty starting list. |
| Legacy.JobClient.Poll | cook/__init__.py:219-224 | The records yielded, the list left, the exception, the missing id and the requests logged are those of `PollOf` for the scheduler's answers. Every record yielded is `completed`. The remaining ids plus the yielded ids are the ids before the poll, plus the one `list.remove` could not find, if any. `IndexError` is raised exactly for an empty list. |
| Legacy.JobClient.Wait | cook/__init__.py:215-229 | The yielded jobs, the list left, the outcome, the unremoved id, the number of polls and the requests logged are those of `WaitOf` for this client's poll. Every yielded job is `completed`, and the loop ends normally only with an empty list. The remaining ids plus the yielded ids are the starting ids, plus the unremovable id when `list.remove` raised. The bound ends the run only after exactly `maxPolls` polls. `IndexError` escapes exactly for an empty starting list. |
| Legacy.JobClient.WaitBy | cook/__init__.py:216-229 | The loop itself: after it, the yielded jobs, list, outcome, unremoved id, poll count and log are those of `WaitOf` for any poll that agrees with this client's. |

## Left out

- HTTP transport: `requests` sessions, headers, timeouts, connection errors and exceptions other than the status check. The server is an oracle from (request number, request) to a response.
- JSON encoding and decoding. A request body is `{"jobs": [...]}` or `{}` as data. A response body is a list of `JobInfo` records.
- Kerberos authentication internals. The stored credential is a tag.
- UUID generation and parsing: replaced by the `freshId` and `isUuid` parameters.
- The epoch-millisecond conversion of `start_time`/`stop_time` in `list`, which is float arithmetic on datetimes. The model receives the rendered values. The `isinstance(start_time, datetime)` asserts are not modelled.
- The `getpass.getuser()` default user of `list`, which is environment I/O. The user is a parameter.
- `time.sleep` and `logger.error` in the `wait` loops, which have no effect here.
- Client.JobClient.Wait: termination is not guaranteed by the source, so the loop is bounded by a `maxPolls` argument. The outcome `PollsExhausted`, which the source does not have, is reported only after exactly `maxPolls` polls with ids still waiting. Runs that would go on longer are not modelled past the bound.
- Legacy.JobClient.Wait: the same `maxPolls` bound applies.
- Both `wait` methods are generators in the source. The model returns the yielded jobs as a list, so it does not capture a consumer stopping early.
- Legacy.JobClient.Poll: the nested loops over replies and their records are read as one loop over the OK records in reply order. Iteration order and the point where `list.remove` raises are unchanged.
- JobSchema.UseInt: `Use(int)`/`Use(long)` of a string, such as `int("12")`, is refused instead of parsed.
- JobSchema.IsInt: `sys.maxint` is that of a 64-bit Python 2 build; the smaller bound of a 32-bit build is not modelled.
- Floats are exact reals. Rounding is not modelled and only the `> 0` comparison matters.
- Python type checks such as `isinstance(jobs, list)`: Dafny's types rule out the wrong types. `http_user=None` passed explicitly to the older constructor is indistinguishable from a given user.
- Aliasing: the same dict appearing twice in a submitted list, or `default_job_settings` shared between clients.
- `get_url`, `get_auth` and `get_default_job_settings` are field reads of the stored configuration.
- Python `assert` statements raise `AssertionError`, as when Python runs without `-O`.
- Sequences are immutable values, so `generate_batch_request` leaving its input unchanged holds by construction.

## Findings

| source | as written | input that shows it | evidently intended | confidence | as-written member | corrected member |
|---|---|---|---|---|---|---|
| cook/__init__.py:35 | `elif auth == "kerberos":` reads the name `auth`, which is not bound in `__init__`. Every auth kind other than `http_basic` therefore raises `NameError`. | `JobClient(url="http://cook:12321", auth="kerberos")` | compare `self.auth` (the keyword value), so Kerberos builds a negotiator and other kinds raise `ValueError` | high, not executed | Legacy.InitAsWritten, Legacy.KerberosConstructionFailsAsWritten | Legacy.Init, Legacy.InitDiscrepancy |
