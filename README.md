# fastapi-metrics-app: the control logic, modelled and proved

The service is a FastAPI application that stores user records in PostgreSQL
through an `asyncpg` pool and exports Prometheus metrics. This project models
its control logic in Dafny and proves what that logic guarantees:

- **Connection pool** (`app/database.py`). The global `pool` is modelled,
  together with `init_db` with its five attempts and doubling back-off, and
  `close_db`. The query primitives `fetch`, `fetchrow`, `execute` and
  `execute_returning` are modelled too. Each one counts and times every call
  through `_instrument_db_call`, and `execute` labels its call by the query's
  leading word.
- **Application lifecycle** (`app/main.py`). The start-up hook retries
  `init_db` with capped doubling. It starts the CPU sampler only after a
  success and swallows every `Exception`. The shutdown hook cancels and
  awaits the background tasks in order.
- **HTTP metrics middleware** (`app/middleware/metrics_middleware.py`).
  Every request is counted once in `http_requests_total` and observed once in
  `http_request_duration_seconds`, whether its handler returned or raised.
- **Handlers** (`app/routers/api.py`). The `DataItemCreate` schema is
  modelled: its length bounds and its name validator (strip, look for a
  space, title-case). So is the decision logic of `create_data` and
  `delete_data`: which response or exception each outcome of the database
  call leads to, and which `db_operations_total` series it increments.

The model is organised as follows:

- `python.dfy` (module `Python`) holds the parts of Python's runtime the
  control flow depends on:
  - `Optional` values;
  - the exceptions that cross the core's boundaries;
  - `Outcome`, a call that returns or raises.

  `asyncio.CancelledError` is the one exception that does not derive from
  `Exception`: `except Exception` lets it through, while `finally` blocks
  still run.
- `pystr.dfy` (module `PyStr`) models `str.split()`, `strip()`, `lower()` and
  `title()`.
- `database.dfy` (module `Database`) models `app/database.py`:
  - The class `Db` holds the module's globals and the metric series it
    writes.
  - `InitDb` is proved against the recursive specification `Init`/`Retry`,
    and the properties of `init_db` are lemmas about that specification.
- `app.dfy` (module `App`) models `app/main.py`:
  - The class `App` holds `_background_tasks`.
  - `Startup` and `Shutdown` are proved against the specifications
    `StartupRun` and `ShutdownRun`.
- `middleware.dfy` (module `Middleware`) models the middleware:
  - The class `MetricsMiddleware` holds the two HTTP series.
  - `Observed` gives the counts over a sequence of requests.
- `api.dfy` (module `Api`) models the schema and the two handlers:
  - The schema is modelled as pure functions.
  - The handlers are the module-level methods `CreateData` and
    `DeleteData`. Each takes the database module's state, a `Db`, as a
    parameter and is proved against the function `CreateResult` or
    `DeleteResult`.

The model's external inputs are these:

- The database is an oracle. `server(n)` is what the n-th `create_pool`
  call, with its `SELECT 1` probe, does.
- Each query primitive receives the pool's answer and `len(pool._holders)` as
  parameters.
- `close_db` receives the outcome of `pool.close()`.
- The middleware receives what `call_next` did.
- Shutdown receives how each task stands when it is awaited.
- `EmailStr` validation is an oracle returning the normalised address, or
  `None` when the address is refused.

Metric series are multisets of label tuples:

- For a counter, the value at labels `l` is `m[l]`.
- For a histogram, `m[l]` is the number of observations at `l`.

Three of the source's names are used without being imported:

- `logging` at `app/database.py:56`;
- `asyncio` at `app/database.py:97`;
- `os` at `app/main.py:67`.

The model follows the evidently intended control flow, that is, it assumes
these names resolve. "## Findings" gives in addition the behaviour of the
code as written: `InitAsWritten` and `StartupAsWritten`.

## Model

| member | source | states |
|---|---|---|
| PyStr.Lower | app/database.py:191 | `lower()` keeps the length, maps every character to its lower-case form, and leaves no upper-case letter |
| PyStr.Title | app/routers/api.py:37 | `title()` keeps the length; `TitleAt` gives every character and `TitleIdempotent` the fixed point |
| PyStr.TitleFromAt | app/routers/api.py:37 | the title-case scan maps each character by whether the character before it is cased, upper-casing after an uncased one |
| PyStr.TitleAt | app/routers/api.py:37 | each character of `title()` is upper-cased at the start of a run of letters and lower-cased inside one |
| PyStr.TitleIdempotent | app/routers/api.py:37 | title-casing a title-cased string changes nothing |
| PyStr.TitleKeepsSpaces | app/routers/api.py:37 | `title()` keeps every whitespace character and every space where it was, and adds none |
| PyStr.TitleInnerSpace | app/routers/api.py:35-37 | title-casing neither creates nor removes a space between two non-whitespace characters |
| PyStr.LeadingSpace | app/routers/api.py:35 | the leading whitespace run of a string: every character before it is whitespace, the one at it is not |
| PyStr.TrimmedEnd | app/routers/api.py:35 | the end of a string without its trailing whitespace: every character after it is whitespace, the one before it is not |
| PyStr.Strip | app/routers/api.py:35 | `strip()` is empty exactly for an all-whitespace string, and otherwise starts and ends with non-whitespace |
| PyStr.StripHasSpace | app/routers/api.py:35 | `' ' in v.strip()` holds exactly when `v` has a space between two non-whitespace characters |
| PyStr.WordLength | app/database.py:191 | the leading non-whitespace run of a string, ended by whitespace or the end |
| PyStr.Split | app/database.py:191 | `split()` gives non-empty words without whitespace, and no word exactly for an all-whitespace string |
| PyStr.SplitFirstWord | app/database.py:191 | the first word of `split()` is the run that follows the leading whitespace, up to the next whitespace or the end |
| PyStr.SplitKeepsNonSpace | app/database.py:191 | joining the words of `split()` gives back every non-whitespace character of the string, in order |
| Database.Init | app/database.py:45-101 | `init_db()` as a function of the state it starts from; its contract is carried by `InitBounds`, `InitAttempts`, `InitTwice` and `ProbeFailureKeepsPool` |
| Database.Step | app/database.py:67-82 | one `create_pool` call: one more attempt, and `pool` assigned when the call returned a pool; its contract is carried by `RetryPool` and `RetryBounds` |
| Database.Retry | app/database.py:61-101 | the `for attempt` loop of `init_db`; its contract is carried by `RetryBounds`, `RetrySleeps`, `RetryOutcome` and `RetryPool` |
| Database.Attempted | app/database.py:64-101 | one turn of that loop once its attempt has gone as the oracle says; its contract is carried by the `Retry*` lemmas |
| Database.RetryBounds | app/database.py:61-101 | the retry loop from attempt `k` on makes between one and `6 - k` connection attempts |
| Database.InitBounds | app/database.py:45-101 | `init_db` makes at most five attempts, and with a pool already set it returns at once and changes nothing |
| Database.BackoffPrefix | app/database.py:62-98 | the doubling delays of a shorter run are a prefix of those of a longer one |
| Database.RetrySleeps | app/database.py:93-98 | the loop sleeps once after every failed attempt but the last, with delays doubling from the current one |
| Database.RetryOutcome | app/database.py:64-101 | every attempt but the last failed with an `Exception`; the last one's outcome is returned or re-raised; an `Exception` escapes only after the fifth attempt; the gauge is set only on success |
| Database.RetryPool | app/database.py:67-86 | `pool` holds the pool of the last attempt that created one, even when its probe failed, and stays `None` only if every `create_pool` call failed |
| Database.InitAttempts | app/database.py:61-101 | with no pool, `init_db` makes one to five attempts, returns exactly when the last connected, sleeps the first of 2, 4, 8, 16 seconds between them, and re-raises an `Exception` only when the fifth attempt fails, as that attempt's failure |
| Database.ProbeFailureKeepsPool | app/database.py:46-86 | once an attempt has created a pool, `init_db` ends with a pool even when it raises, and every later call returns at once |
| Database.InitTwice | app/database.py:46-47 | after an `init_db` that returned, a second call makes no attempt and changes nothing |
| Database.InitAsWritten | app/database.py:56 | `init_db` as written: `NameError` with no pool, before any attempt; its contract is carried by `InitAsWrittenNeverConnects` |
| Database.InitAsWrittenNeverConnects | app/database.py:56 | as written, `init_db` with no pool raises `NameError` and never connects, where the intended `init_db` connects on the first answering attempt |
| Database.OperationLabel | app/database.py:191 | the label of `execute`: `IndexError` exactly for an all-whitespace query, otherwise a non-empty word with no whitespace and no upper-case letter |
| Database.LabelIsLeadingWord | app/database.py:191 | the label is the query's leading word, lower-cased |
| Database.DeleteLabel | app/database.py:191 | a command that starts with `DELETE ` is counted under "delete" |
| Database.ToDict | app/database.py:169-183 | `dict(record)` has exactly the record's column names as keys |
| Database.ToDictLastWins | app/database.py:169-183 | for a column name that occurs twice, `dict(record)` holds the value of the later column |
| Database.Rows | app/database.py:169 | `fetch` returns one dictionary per row, with the same length and order |
| Database.AsRow | app/database.py:183 | `dict(row) if row else None`: `None` for a missing or column-less row, otherwise the row's non-empty dictionary |
| Database.Tally | app/database.py:136-148 | one call adds at most one count, under its own operation: "success" exactly when it returned, "error" for an `Exception`, and nothing exactly for a cancellation |
| Database.Db.constructor | app/database.py:27 | the module starts with no pool, no attempts, no sleeps, and empty metric series |
| Database.Db.InitDb | app/database.py:34-101 | `init_db()` leaves exactly the outcome and state that the specification `Init` gives for the state it started from |
| Database.Db.CloseDb | app/database.py:104-109 | `close_db` is a no-op without a pool; with one, it resets the pool to `None` once `pool.close()` returns, and propagates a failure of `pool.close()` with the pool unchanged |
| Database.Db.Instrument | app/database.py:112-155 | with no pool it raises `RuntimeError` and changes nothing; otherwise it returns or re-raises the call's outcome unchanged, adds exactly one success or error count (none for a cancellation), one duration observation, and refreshes the gauge |
| Database.Db.Fetch | app/database.py:158-169 | `fetch` fails without a pool before any metric update; otherwise it counts under "select" and returns the rows as dictionaries |
| Database.Db.FetchRow | app/database.py:172-183 | `fetchrow` fails without a pool before any metric update; otherwise it counts under "select" and returns the row as a dictionary or `None` |
| Database.Db.Execute | app/database.py:186-197 | `execute` fails without a pool, or with `IndexError` on a blank query, before any metric update; otherwise it counts under the query's lower-cased leading word and returns the status unchanged |
| Database.Db.ExecuteReturning | app/database.py:200-211 | `execute_returning` fails without a pool before any metric update; otherwise it counts under "modify" and returns the row as a dictionary or `None` |
| App.NextDelay | app/main.py:88 | `min(retry_delay * 2, 10)` never exceeds 10, doubles a delay of at most 5, and is 10 from a delay of 5 on |
| App.InitIsBudgeted | app/database.py:61-101 | the modelled `init_db` makes at most five connection attempts from any state |
| App.CappedBackoffBounded | app/main.py:73-88 | every capped delay is at most 10 |
| App.CappedBackoffPrefix | app/main.py:73-88 | the capped delays of a shorter run are a prefix of those of a longer one |
| App.StartupFrom | app/main.py:76-92 | the `for attempt` loop of `_startup` after one `init_db` call; its contract is carried by `StartupLoopCalls`, `StartupLoopOutcome`, `StartupLoopSleeps` and `StartupLoopAttempts` |
| App.StartupLoop | app/main.py:75-78 | one turn of that loop, calling `init_db`; its contract is carried by the same lemmas |
| App.StartupRun | app/main.py:71-100 | `_startup()` from a database state; its contract is carried by `StartupFacts` |
| App.StartupLoopOutcome | app/main.py:75-100 | the start-up loop makes at most five calls; no `Exception` leaves `_startup`, only a cancellation, and a cancellation never starts the task |
| App.StartupLoopCalls | app/main.py:75-92 | every `init_db` call of the loop but the last raised an `Exception`, so the loop stops at the first call that returns; the task is started exactly when the last call returned, that is, exactly when some call returned; `_startup` ends with the last call's cancellation or else returns; a swallowed failure ends the loop only as the fifth call |
| App.StartupLoopSleeps | app/main.py:81-88 | the loop sleeps once between consecutive calls, with the capped delays, and stops before the fifth call only at a success or a cancellation |
| App.StartupLoopAttempts | app/main.py:75-88 | with an `init_db` of at most five attempts, each start-up call adds at most five connection attempts |
| App.StartupFacts | app/main.py:60-100 | `_startup` calls `init_db` one to five times and sleeps a prefix of 1, 2, 4, 8 seconds, never more than 10; every call but the last raised an `Exception`; it starts the sampler exactly when some call returned, and when it returns without doing so all five calls raised an `Exception`; only a cancellation escapes it |
| App.StartupAttemptsBound | app/main.py:75-88 | with an `init_db` of at most five attempts, `_startup` makes at most five connection attempts per call, 25 in all |
| App.StartupAfterProbeFailure | app/main.py:75-92 | when the first `init_db` fails after its probe had set the pool, the second call returns at once, so after one sleep of 1 second the sampler starts although nothing connected |
| App.StartupAsWrittenNeverConnects | app/main.py:67 | as written, `_startup` raises `NameError` before its loop and swallows it: no `init_db` call and no task, where the intended `_startup` connects on the first call |
| App.StartupAsWritten | app/main.py:67 | `_startup` as written: no `init_db` call, no sleep and no task; its contract is carried by `StartupAsWrittenNeverConnects` |
| App.Escapes | app/main.py:108-109 | `await task` raises past `suppress(asyncio.CancelledError)` exactly for a task that ended by raising something other than a cancellation; its contract is carried by `ShutdownFacts` |
| App.ShutdownRun | app/main.py:104-109 | the shutdown loop cancels at most every task; `ShutdownFacts` carries what it means |
| App.ShutdownFacts | app/main.py:104-111 | `_shutdown` cancels and awaits the tasks in list order; it returns exactly when no task re-raises a failure other than a cancellation, and then it has cancelled every task; otherwise it stops at the first such task and raises its failure |
| App.App.constructor | app/main.py:57 | the application starts with no background task and an uninitialised database module |
| App.App.Startup | app/main.py:60-100 | `_startup()` leaves the outcome, database state and sleeps that `StartupRun` gives, and appends exactly one new task to `_background_tasks` exactly when one of its `init_db` calls returned, nothing otherwise |
| App.App.InitWithRetries | app/main.py:71-88 | the `for attempt` loop around `init_db` with its outer `except Exception` ends with the outcome, state and sleeps that `StartupRun` gives |
| App.App.Shutdown | app/main.py:103-111 | `_shutdown()` cancels exactly the tasks `ShutdownRun` says, in list order, and returns or raises as it says; `_background_tasks` and the pool are untouched |
| Middleware.Route | app/middleware/metrics_middleware.py:28 | the route label is the scope's "path", or the URL path without one; its contract is carried by `ObservedLabels` and `Dispatch` |
| Middleware.StatusCode | app/middleware/metrics_middleware.py:27 | the status label is the response's status, or 500 without a response; its contract is carried by `ObservedLabels` and `Dispatch` |
| Middleware.LabelsOf | app/middleware/metrics_middleware.py:27-40 | the labels of one request, shared by both series; its contract is carried by `ObservedLabels` and `Dispatch` |
| Middleware.Observed | app/middleware/metrics_middleware.py:30-34 | the counter's increments over a sequence of requests; its contract is carried by `ObservedCountsEveryRequest`, `ObservedAppend` and `ObservedLabels` |
| Middleware.ObservedCountsEveryRequest | app/middleware/metrics_middleware.py:22-34 | over any sequence of requests the counter grows by exactly one per request |
| Middleware.ObservedAppend | app/middleware/metrics_middleware.py:30-34 | the counts of two consecutive stretches of traffic add up |
| Middleware.ObservedLabels | app/middleware/metrics_middleware.py:27-34 | every request is counted under its own method and its raw scope path (or URL path), with its response's status or 500 when its handler raised, and nothing else is counted |
| Middleware.MetricsMiddleware.constructor | app/middleware/metrics_middleware.py:16 | both series start empty, with no request served, so they hold `Observed` of the empty trace |
| Middleware.MetricsMiddleware.Dispatch | app/middleware/metrics_middleware.py:19-41 | `dispatch` returns the response unchanged or lets the exception through, and in either case adds exactly one count and one duration observation with the same labels (status 500 without a response), keeping the histogram's count equal to the counter; it appends the request to the requests served, so both series stay equal to `Observed` of that trace |
| Api.NameMustContainSpace | app/routers/api.py:33-37 | the validator refuses a name with "Name must contain at least one space" exactly when its stripped form has no space, and otherwise returns the title-cased original, of the same length |
| Api.NameValidatorIdempotent | app/routers/api.py:33-40 | a name the validator returned passes it again unchanged |
| Api.CheckName | app/routers/api.py:29-37 | a name is accepted exactly when it has at most 100 characters and an inner space; the length bound is checked before the validator |
| Api.CheckEmail | app/routers/api.py:30 | an e-mail is accepted exactly when the `EmailStr` check accepts it, as its normal form |
| Api.CheckMessage | app/routers/api.py:31 | an accepted message is kept unchanged, absent included; a refused one is over 500 characters and reported as such |
| Api.CheckId | app/routers/api.py:42 | `id: int` accepts an integer column and refuses any other; its contract is carried by `ValidateResponse` |
| Api.CheckCreatedAt | app/routers/api.py:43 | `created_at: datetime` accepts a timestamp column and refuses any other; its contract is carried by `ValidateResponse` |
| Api.CheckUpdatedAt | app/routers/api.py:44 | `updated_at: Optional[datetime]` accepts a null or a timestamp column and refuses any other; its contract is carried by `ValidateResponse` |
| Api.ValidateItem | app/routers/api.py:27-37 | an item is accepted exactly when its name fits and has an inner space, its e-mail is valid and its message is absent or at most 500 characters; the accepted item has the title-cased name; a refusal lists one to three field errors |
| Api.ItemErrorsListed | app/routers/api.py:29-37 | a refused item reports the too-long name, the validator's message, the invalid e-mail and the too-long message exactly when each applies, in field order |
| Api.RevalidationKeepsItem | app/routers/api.py:114 | validating a validated item again gives it back, if the e-mail check accepts its own normal forms |
| Api.ValidateResponse | app/routers/api.py:40-44 | `DataItemResponse` accepts exactly an item `DataItemCreate` accepts with an integer `id`, a timestamp `created_at` and an absent or timestamp `updated_at`, and then holds the validated item and the `id`; otherwise it raises a `ValidationError` with one to six field errors |
| Api.BuildResponse | app/routers/api.py:108-114 | building the response raises only an `Exception`: a `KeyError` for a column the row lacks, or the response model's error; it returns exactly when the three columns are there and the response model accepts them |
| Api.CreateInner | app/routers/api.py:90-134 | the inner `try` passes a failure of `fetchrow` on unchanged, and once `fetchrow` returned only an `Exception` can arise |
| Api.CreateResult | app/routers/api.py:76-159 | `create_data` counts a success once as ("create", "success"); every `Exception`, the handler's own "no result" included, ends as a 500 "Database error" wrapping it and is counted once as ("create", "error"); an empty row gives the wrapped "No result returned from database insert"; for a returned row the wrapped cause is the `KeyError` of the first missing column, in the order `id`, `created_at`, `updated_at`, or else the response model's error; a cancellation propagates uncounted |
| Api.CreateEchoesItem | app/routers/api.py:107-134 | a created item is echoed: the response holds the validated item and the `id`, `created_at` and `updated_at` the insert returned |
| Api.CreateCounts | app/routers/api.py:91-155 | one `create_data` request counts the insert once under "select" (the label of `fetchrow`, never "modify") when a pool exists, and its outcome once under "create" unless cancelled |
| Api.CreateData | app/routers/api.py:61-159 | `create_data` against the database module returns what `CreateResult` gives for the outcome of its `fetchrow`, and adds exactly the primitive's and the handler's counts |
| Api.DeleteResult | app/routers/api.py:196-227 | "DELETE 0" raises a 404 "Item not found" that is re-raised uncounted; any other status gives a 204; an `HTTPException` or a cancellation raised by `execute` is re-raised unchanged and uncounted; any other `Exception` gives a 500 "Failed to delete item" and exactly one ("delete", "error") |
| Api.DeleteFailureCounts | app/routers/api.py:203-223 | a failed delete is counted twice as ("delete", "error"), by the query primitive and by the handler, and once when there is no pool |
| Api.DeleteQueryLabel | app/routers/api.py:204 | the delete query is counted under "delete" |
| Api.DeleteData | app/routers/api.py:196-227 | `delete_data` against the database module returns what `DeleteResult` gives for the outcome of its `execute`, and adds exactly the primitive's and the handler's counts |

## Left out

- Environment variables, `create_pool`'s connection parameters and all
  logging are left out. A well-formed value only feeds the database oracle
  and the log.
- A malformed `DB_PORT` or `DB_MAX_CONNECTIONS` is left out. `int(...)` at
  `app/database.py:50` and `app/database.py:54` then raises `ValueError`
  before any attempt. The model's `init_db` always reaches its first
  attempt, so `Database.InitAttempts` says that at least one attempt is
  made.
- Clocks and durations are left out: `time.perf_counter`, `datetime.now()`
  and the float durations. A histogram is modelled by its number of
  observations per label set, and a timestamp is an opaque integer.
- Concurrency and event-loop scheduling are left out. Sleeps are recorded
  as their delays, and a task as an entry of a list. The model assumes that
  nothing else runs between the steps of one call.
- `asyncpg` internals are oracles: `create_pool`, `pool.fetch`,
  `pool.execute`, `pool.close` and `pool._holders`.
- The Prometheus registry, the metric definitions in `app/metrics` and the
  exposition endpoint (`app/main.py:39-42`) are not part of this model.
  Counters are multisets of label tuples, and a status label is a number
  rather than its string form.
- `log_request` (`app/routers/api.py:162-183`) and the background task
  `create_data` schedules for it are left out. That function uses other
  labels and other metric definitions that are not part of this model.
- The outer `except Exception` of `create_data` (`app/routers/api.py:150-159`)
  has no modelled path. Only the timestamp and the logging call at lines
  78-81 can raise outside the inner `try`, and both are left out.
- `app/metrics/system_metrics.py` is not part of this model: the sampler's
  loop, `psutil` and percentages. A task's fate is a parameter of shutdown.
- `app/routers/health.py`, the root endpoint and FastAPI's routing and
  request parsing are not part of this model.
- `PyStr`'s case mappings cover the ASCII letters only. Python's `lower()`
  and `title()` follow the full Unicode tables, which are not modelled.
  Whitespace is Python's `isspace()` set. This choice has three costs:
  - In Python a case mapping can change the length: `'ß'.title()` is
    `'Ss'`. `PyStr.Title` keeping the length, the bound of 100 on the
    title-cased name in `Api.ValidateItem` and `Api.RevalidationKeepsItem`
    therefore hold for ASCII names only.
  - In Python a name of 100 characters can pass `DataItemCreate`, be
    inserted, and then fail `DataItemResponse` because its title-cased
    form is longer, which gives a 500. The model has no such path.
  - A non-ASCII letter counts as uncased in the model, so the letter after
    it is upper-cased: the model gives "MüLler" where Python gives
    "Müller".
- Api.ValidateItem: pydantic's coercions are not modelled. Values of another
  type are refused rather than converted, for example a number for `name`,
  or a string for `id` or a timestamp.
- Api.CreateEchoesItem: the e-mail oracle is assumed to accept its own normal
  forms. The response model validates the e-mail again, and
  `email_validator` is not part of this model.
- `asyncio` at `app/database.py:97` is also used without an import. Once
  line 56 is repaired, every retry would raise `NameError` at that line
  after the first failed attempt. The model assumes the name resolves, as it
  does for `logging` and for `os` (see "## Findings").

## Findings

| source | as written | input that shows it | evidently intended | confidence | as-written member | corrected member |
|---|---|---|---|---|---|---|
| app/database.py:56 | `logging.getLogger` is called but `logging` is never imported, so `init_db` with no pool raises `NameError` before its first attempt | no pool, and a database that accepts the first connection | import `logging`; `init_db` connects and sets the pool | not executed | Database.InitAsWrittenNeverConnects | Database.Db.InitDb |
| app/main.py:67 | `os.getenv` is called but `os` is never imported; the `NameError` is swallowed by the outer `except Exception`, so `_startup` never calls `init_db` and never starts the sampler | a fresh process with a database that accepts the first connection | import `os`; `_startup` initialises the database and appends the sampler task | not executed | App.StartupAsWrittenNeverConnects | App.App.Startup |
