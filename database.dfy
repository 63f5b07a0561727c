/** app/database.py: the process-wide connection pool, its start-up with
    retries and doubling back-off, its teardown, and the query primitives
    that count and time every call.

    The database itself is an oracle. `server(n)` is what the n-th
    `asyncpg.create_pool` call, together with the `SELECT 1` probe on one of
    its connections, does (n counts calls over the life of the process), and
    each query primitive takes the pool's answer to its query as a parameter,
    with `len(pool._holders)` read afterwards for the gauge. Metric series
    are multisets of label tuples: a counter's value at labels `l` is `m[l]`,
    and a histogram's number of observations at `l` likewise. */
module Database {
  import opened Python
  import PyStr

  const MaxRetries: nat := 5
  const FirstRetryDelay: nat := 2
  const StatusSuccess := "success"
  const StatusError := "error"
  const PoolNotInitialized := "Database pool not initialized"

  /** An `asyncpg` pool object; only its identity matters here. */
  datatype Pool = Pool(id: nat)

  /** What one connection attempt of `init_db` did. */
  datatype Attempt =
    | CreateFailed(exc: Exc)               // create_pool raised
    | ProbeFailed(pool: Pool, exc: Exc)    // the pool was created, then acquire or SELECT 1 raised
    | Connected(pool: Pool, holders: nat)  // the pool answered SELECT 1; holders = len(pool._holders)

  /** A failed attempt after which `init_db` may go on: the failure is caught
      by `except Exception`. */
  predicate Retryable(a: Attempt) {
    !a.Connected? && a.exc.IsException()
  }

  /** A column value as the driver returns it. */
  datatype Value = IntV(i: int) | TextV(text: string) | TimeV(t: int) | NullV

  /** An `asyncpg.Record`: its columns in order, each a name and a value. */
  type Record = seq<(string, Value)>

  /** `dict(record)`. */
  type RowDict = map<string, Value>

  /** The labels of `db_operations_total`. */
  datatype OpKey = OpKey(operation: string, status: string)

  /** What `init_db` and `close_db` read and write: the global `pool`, the
      number of `create_pool` calls made so far, the `asyncio.sleep` delays
      so far, and the `db_connections_active` gauge. */
  datatype PoolState = PoolState(pool: Option<Pool>, attempts: nat, sleeps: seq<nat>, gauge: nat)

  datatype InitResult = InitResult(outcome: Outcome<()>, state: PoolState)

  // ---------------------------------------------------------------------------
  // init_db, as functions of the state it starts from
  // ---------------------------------------------------------------------------

  /** `init_db()`: nothing at all when a pool exists, the retry loop otherwise. */
  function Init(server: nat -> Attempt, s: PoolState): InitResult {
    if s.pool.Some? then InitResult(Ok(()), s) else Retry(server, s, 1, FirstRetryDelay)
  }

  /** The state right after one attempt: one more `create_pool` call, and
      `pool` assigned when that call returned a pool. */
  function Step(s: PoolState, a: Attempt): PoolState {
    s.(attempts := s.attempts + 1, pool := if a.CreateFailed? then s.pool else Some(a.pool))
  }

  /** The `for attempt` loop of `init_db` from attempt `attempt` on, with
      `retry_delay == delay`. `pool` is assigned as soon as `create_pool`
      returns, before the probe; a failure with attempts left sleeps and
      doubles the delay; the failure of the last attempt is re-raised. */
  function Retry(server: nat -> Attempt, s: PoolState, attempt: nat, delay: nat): InitResult
    requires 1 <= attempt <= MaxRetries
    decreases MaxRetries - attempt, 1
  {
    Attempted(server, s, server(s.attempts), attempt, delay)
  }

  /** The rest of `Retry` once attempt `attempt` has gone as `a` says. */
  function Attempted(server: nat -> Attempt, s: PoolState, a: Attempt, attempt: nat, delay: nat): InitResult
    requires 1 <= attempt <= MaxRetries
    decreases MaxRetries - attempt, 0
  {
    var s1 := Step(s, a);
    if a.Connected? then InitResult(Ok(()), s1.(gauge := a.holders))
    else if !a.exc.IsException() || attempt == MaxRetries then InitResult(Raise(a.exc), s1)
    else Retry(server, s1.(sleeps := s1.sleeps + [delay]), attempt + 1, 2 * delay)
  }

  /** The retry loop makes at least one attempt, and at most one for each
      attempt number left. */
  lemma {:induction false} RetryBounds(server: nat -> Attempt, s: PoolState, attempt: nat, delay: nat)
    requires 1 <= attempt <= MaxRetries
    ensures var r := Retry(server, s, attempt, delay);
      s.attempts < r.state.attempts <= s.attempts + MaxRetries - attempt + 1
    decreases MaxRetries - attempt
  {
    var a := server(s.attempts);
    var s1 := Step(s, a);
    if !(a.Connected? || !a.exc.IsException() || attempt == MaxRetries) {
      RetryBounds(server, s1.(sleeps := s1.sleeps + [delay]), attempt + 1, 2 * delay);
    }
  }

  /** `init_db` makes at most five attempts, and none when a pool exists. */
  lemma InitBounds(server: nat -> Attempt, s: PoolState)
    ensures s.attempts <= Init(server, s).state.attempts <= s.attempts + MaxRetries
    ensures s.pool.Some? ==> Init(server, s) == InitResult(Ok(()), s)
  {
    if s.pool.None? {
      RetryBounds(server, s, 1, FirstRetryDelay);
    }
  }

  /** The three ways one turn of the retry loop can go. */
  lemma RetryFirst(server: nat -> Attempt, s: PoolState, attempt: nat, delay: nat)
    requires 1 <= attempt <= MaxRetries
    ensures var a := server(s.attempts); var s1 := Step(s, a);
      && (a.Connected? ==> Retry(server, s, attempt, delay) == InitResult(Ok(()), s1.(gauge := a.holders)))
      && (!a.Connected? && (!a.exc.IsException() || attempt == MaxRetries) ==>
            Retry(server, s, attempt, delay) == InitResult(Raise(a.exc), s1))
      && (!a.Connected? && a.exc.IsException() && attempt < MaxRetries ==>
            Retry(server, s, attempt, delay) == Retry(server, s1.(sleeps := s1.sleeps + [delay]), attempt + 1, 2 * delay))
  {
  }

  /** The delays `d, 2d, 4d, ...`, `k` of them. */
  function Backoff(d: nat, k: nat): seq<nat>
    decreases k
  {
    if k == 0 then [] else [d] + Backoff(2 * d, k - 1)
  }

  lemma {:induction false} BackoffPrefix(d: nat, k: nat, m: nat)
    requires k <= m
    ensures |Backoff(d, m)| == m
    ensures Backoff(d, k) == Backoff(d, m)[..k]
    decreases m
  {
    if m > 0 {
      BackoffPrefix(2 * d, if k == 0 then 0 else k - 1, m - 1);
    }
  }

  /** How many attempts the retry loop makes from attempt `attempt` on, and
      the delays it sleeps between them. */
  lemma {:induction false} RetrySleeps(server: nat -> Attempt, s: PoolState, attempt: nat, delay: nat)
    requires 1 <= attempt <= MaxRetries
    ensures s.attempts < Retry(server, s, attempt, delay).state.attempts
    ensures var r := Retry(server, s, attempt, delay);
      r.state.sleeps == s.sleeps + Backoff(delay, r.state.attempts - s.attempts - 1)
    decreases MaxRetries - attempt
  {
    RetryBounds(server, s, attempt, delay);
    var a := server(s.attempts);
    var s1 := Step(s, a);
    if a.Connected? || !a.exc.IsException() || attempt == MaxRetries {
      assert Backoff(delay, 0) == [];
    } else {
      var s2 := s1.(sleeps := s1.sleeps + [delay]);
      RetrySleeps(server, s2, attempt + 1, 2 * delay);
      var r := Retry(server, s2, attempt + 1, 2 * delay);
      var used := r.state.attempts - s2.attempts;
      assert Backoff(delay, used + 1) == [delay] + Backoff(2 * delay, used);
    }
  }

  /** Which outcome the retry loop ends with: every attempt but the last
      failed with an `Exception`; the last one's outcome is returned or
      raised; an `Exception` is raised only at the fifth attempt. */
  lemma {:induction false} RetryOutcome(server: nat -> Attempt, s: PoolState, attempt: nat, delay: nat)
    requires 1 <= attempt <= MaxRetries
    ensures s.attempts < Retry(server, s, attempt, delay).state.attempts
    ensures var r := Retry(server, s, attempt, delay);
      var last := server(r.state.attempts - 1);
      && (forall j :: s.attempts <= j < r.state.attempts - 1 ==> Retryable(server(j)))
      && r.outcome == (if last.Connected? then Ok(()) else Raise(last.exc))
      && (r.outcome.Raise? && r.outcome.exc.IsException() ==>
            attempt + r.state.attempts - s.attempts - 1 == MaxRetries)
      && r.state.gauge == (if last.Connected? then last.holders else s.gauge)
    decreases MaxRetries - attempt
  {
    RetryBounds(server, s, attempt, delay);
    var a := server(s.attempts);
    var s1 := Step(s, a);
    if !(a.Connected? || !a.exc.IsException() || attempt == MaxRetries) {
      RetryOutcome(server, s1.(sleeps := s1.sleeps + [delay]), attempt + 1, 2 * delay);
    }
  }

  /** What the retry loop leaves in `pool`: the pool of the last attempt that
      created one, and `None` only if no attempt created one. */
  lemma {:induction false} RetryPool(server: nat -> Attempt, s: PoolState, attempt: nat, delay: nat)
    requires 1 <= attempt <= MaxRetries
    ensures s.attempts < Retry(server, s, attempt, delay).state.attempts
    ensures var r := Retry(server, s, attempt, delay);
      var last := server(r.state.attempts - 1);
      && (!last.CreateFailed? ==> r.state.pool == Some(last.pool))
      && (r.state.pool.None? <==>
            s.pool.None? && forall j :: s.attempts <= j < r.state.attempts ==> server(j).CreateFailed?)
    decreases MaxRetries - attempt
  {
    RetryBounds(server, s, attempt, delay);
    var a := server(s.attempts);
    var s1 := Step(s, a);
    if !(a.Connected? || !a.exc.IsException() || attempt == MaxRetries) {
      RetryPool(server, s1.(sleeps := s1.sleeps + [delay]), attempt + 1, 2 * delay);
    }
  }

  /** `init_db()` with no pool makes between one and five attempts; it
      returns exactly when the last of them connected; it sleeps after every
      failed attempt but the last, the delays being the first of 2, 4, 8 and
      16; it re-raises an `Exception` only when the fifth attempt fails too,
      and then it is that attempt's failure. */
  lemma InitAttempts(server: nat -> Attempt, s: PoolState)
    requires s.pool.None?
    ensures var r := Init(server, s);
      var used := r.state.attempts - s.attempts;
      var last := server(r.state.attempts - 1);
      && 1 <= used <= MaxRetries
      && r.state.sleeps == s.sleeps + [2, 4, 8, 16][..used - 1]
      && (forall j :: s.attempts <= j < r.state.attempts - 1 ==> Retryable(server(j)))
      && (r.outcome.Ok? <==> last.Connected?)
      && (r.outcome.Raise? && r.outcome.exc.IsException() ==>
            used == MaxRetries && r.outcome.exc == server(s.attempts + MaxRetries - 1).exc)
  {
    RetrySleeps(server, s, 1, FirstRetryDelay);
    RetryOutcome(server, s, 1, FirstRetryDelay);
    var used := Init(server, s).state.attempts - s.attempts;
    BackoffPrefix(FirstRetryDelay, used - 1, MaxRetries - 1);
    assert Backoff(FirstRetryDelay, MaxRetries - 1) == [2, 4, 8, 16];
  }

  /** A probe failure leaves `pool` set: once an attempt has created a pool,
      `init_db` ends with some pool, even when it raises, and every later
      call of `init_db` returns at once without an attempt. */
  lemma ProbeFailureKeepsPool(server: nat -> Attempt, s: PoolState)
    requires s.pool.None?
    requires exists j :: s.attempts <= j < Init(server, s).state.attempts && !server(j).CreateFailed?
    ensures Init(server, s).state.pool.Some?
    ensures var after := Init(server, s).state; Init(server, after) == InitResult(Ok(()), after)
  {
    RetryPool(server, s, 1, FirstRetryDelay);
  }

  /** Idempotence: after an `init_db` that returned, a second call changes
      nothing and makes no attempt. */
  lemma InitTwice(server: nat -> Attempt, s: PoolState)
    requires Init(server, s).outcome.Ok?
    ensures var after := Init(server, s).state; Init(server, after) == InitResult(Ok(()), after)
  {
    if s.pool.None? {
      RetryPool(server, s, 1, FirstRetryDelay);
    }
  }

  /** `init_db` as written: `logging` is used at its line 56 but never
      imported, so with no pool the call raises `NameError` before any
      attempt. */
  function InitAsWritten(s: PoolState): InitResult {
    if s.pool.Some? then InitResult(Ok(()), s) else InitResult(Raise(NameError("logging")), s)
  }

  /** As written, `init_db` never connects, even to a database that answers
      the first attempt, where the intended `init_db` returns. */
  lemma InitAsWrittenNeverConnects(server: nat -> Attempt, s: PoolState)
    requires s.pool.None? && server(s.attempts).Connected?
    ensures InitAsWritten(s).outcome.Raise? && InitAsWritten(s).state.pool.None?
    ensures Init(server, s).outcome.Ok? && Init(server, s).state.pool.Some?
  {
  }

  // ---------------------------------------------------------------------------
  // pure parts of the query primitives
  // ---------------------------------------------------------------------------

  /** The operation label `execute` derives from its query:
      `query.split()[0].lower()`, which raises `IndexError` on a query of
      whitespace only. */
  function OperationLabel(query: string): (r: Outcome<string>)
    ensures r.Raise? <==> PyStr.AllSpace(query)
    ensures r.Raise? ==> r.exc == IndexError
    ensures r.Ok? ==> r.value != [] && PyStr.NoSpace(r.value)
    ensures r.Ok? ==> forall i :: 0 <= i < |r.value| ==> !PyStr.IsUpper(r.value[i])
  {
    var words := PyStr.Split(query);
    if words == [] then Raise(IndexError) else Ok(PyStr.Lower(words[0]))
  }

  /** The label is the query's leading word, lower-cased: whatever follows
      the leading whitespace up to the next whitespace or the end. */
  lemma LabelIsLeadingWord(query: string, a: nat, b: nat)
    requires a < b <= |query|
    requires PyStr.AllSpace(query[..a]) && PyStr.NoSpace(query[a..b])
    requires b == |query| || PyStr.IsSpace(query[b])
    ensures OperationLabel(query) == Ok(PyStr.Lower(query[a..b]))
  {
    PyStr.SplitFirstWord(query, a, b);
  }

  /** A command starting with the word DELETE and a space is counted
      under "delete", as the query of `delete_data` is. */
  lemma DeleteLabel(rest: string)
    ensures OperationLabel("DELETE " + rest) == Ok("delete")
  {
    var q := "DELETE " + rest;
    var w := "DELETE";
    assert q[..0] == [];
    assert q[0..6] == w;
    forall i | 0 <= i < |w|
      ensures !PyStr.IsSpace(w[i])
    {
    }
    assert q[6] == ' ';
    LabelIsLeadingWord(q, 0, 6);
    var l := PyStr.Lower(w);
    forall i | 0 <= i < |w|
      ensures l[i] == "delete"[i]
    {
    }
    assert l == "delete";
  }

  /** The columns of a record. */
  function Columns(rec: Record): set<string> {
    set c | c in rec :: c.0
  }

  /** `dict(record)`: each column name mapped to its value; when a name
      occurs twice, the later column wins. */
  function ToDict(rec: Record): (d: RowDict)
    ensures d.Keys == Columns(rec)
  {
    if rec == [] then map[]
    else
      var init := rec[..|rec| - 1];
      assert Columns(rec) == Columns(init) + {rec[|rec| - 1].0} by {
        assert rec == init + [rec[|rec| - 1]];
      }
      ToDict(init)[rec[|rec| - 1].0 := rec[|rec| - 1].1]
  }

  /** The value `dict(record)` holds for a column is that of the column's
      last occurrence. */
  lemma {:induction false} ToDictLastWins(rec: Record, i: nat)
    requires i < |rec|
    requires forall j :: i < j < |rec| ==> rec[j].0 != rec[i].0
    ensures rec[i].0 in ToDict(rec) && ToDict(rec)[rec[i].0] == rec[i].1
  {
    var init := rec[..|rec| - 1];
    if i < |rec| - 1 {
      ToDictLastWins(init, i);
    }
  }

  /** `[dict(row) for row in rows]`: one dictionary per row, in order. */
  function Rows(recs: seq<Record>): (r: seq<RowDict>)
    ensures |r| == |recs|
    ensures forall i :: 0 <= i < |recs| ==> r[i] == ToDict(recs[i])
  {
    if recs == [] then [] else [ToDict(recs[0])] + Rows(recs[1..])
  }

  /** `dict(row) if row else None`: a record is false when it has no
      columns, so an empty record gives `None` like a missing one. */
  function AsRow(row: Option<Record>): (r: Option<RowDict>)
    ensures r.Some? <==> row.Some? && row.value != []
    ensures r.Some? ==> r.value == ToDict(row.value) && r.value != map[]
  {
    if row.Some? && row.value != [] then
      assert row.value[0].0 in Columns(row.value);
      Some(ToDict(row.value))
    else None
  }

  /** The increment of `db_operations_total` for one call that returned or
      raised: "success", "error" for an `Exception`, nothing otherwise. */
  function Tally<T>(operation: string, answer: Outcome<T>): (r: multiset<OpKey>)
    ensures |r| <= 1
    ensures r == multiset{} <==> answer.Raise? && !answer.exc.IsException()
    ensures forall k :: k in r ==> k.operation == operation && (k.status == StatusSuccess <==> answer.Ok?)
    ensures answer.Ok? ==> r == multiset{OpKey(operation, StatusSuccess)}
    ensures answer.Raise? && answer.exc.IsException() ==> r == multiset{OpKey(operation, StatusError)}
  {
    if answer.Ok? then multiset{OpKey(operation, StatusSuccess)}
    else if answer.exc.IsException() then multiset{OpKey(operation, StatusError)}
    else multiset{}
  }

  /** The value a query primitive hands back for the pool's answer, through
      `convert` when the pool returned. */
  function Map<T, U>(answer: Outcome<T>, convert: T -> U): Outcome<U> {
    match answer
    case Ok(v) => Ok(convert(v))
    case Raise(e) => Raise(e)
  }

  // ---------------------------------------------------------------------------
  // the module's global state and its operations
  // ---------------------------------------------------------------------------

  class Db {
    /** The global `pool`. */
    var pool: Option<Pool>
    /** `create_pool` calls so far. */
    var attempts: nat
    /** The delays of the `asyncio.sleep` calls `init_db` made. */
    var sleeps: seq<nat>
    /** `db_connections_active`. */
    var activeConnections: nat
    /** `db_operations_total{operation, status}`. */
    var ops: multiset<OpKey>
    /** The observations of `db_query_duration_seconds{operation}`. */
    var durations: multiset<string>
    /** The database's behaviour towards connection attempts. */
    const server: nat -> Attempt
    /** What `init_db` does, as a function of the pool state; `Valid` says
        that it is `Init`. Callers of `init_db` reason about this value
        without unfolding `Init`. */
    ghost const initDb: PoolState -> InitResult

    ghost predicate Valid() {
      forall s {:trigger Init(server, s)} :: initDb(s) == Init(server, s)
    }

    constructor (server: nat -> Attempt)
      ensures pool == None && attempts == 0 && sleeps == [] && activeConnections == 0
      ensures ops == multiset{} && durations == multiset{}
      ensures this.server == server && Valid()
    {
      initDb := s => Init(server, s);
      pool := None;
      attempts := 0;
      sleeps := [];
      activeConnections := 0;
      ops := multiset{};
      durations := multiset{};
      this.server := server;
    }

    function State(): PoolState
      reads this
    {
      PoolState(pool, attempts, sleeps, activeConnections)
    }

    /** One instrumented call with outcome `answer`: exactly one counter
      increment, one duration observation and a gauge refresh. */
    twostate predicate Recorded<T>(operation: string, answer: Outcome<T>, holders: nat)
      reads this
    {
      && ops == old(ops) + Tally(operation, answer)
      && durations == old(durations) + multiset{operation}
      && activeConnections == holders
    }

    /** `init_db()`. */
    method InitDb() returns (r: Outcome<()>)
      requires Valid()
      modifies this`pool, this`attempts, this`sleeps, this`activeConnections
      ensures InitResult(r, State()) == initDb(old(State()))
    {
      ghost var start, cur := State(), State();
      assert initDb(start) == Init(server, start);
      if pool.Some? {
        return Ok(());
      }
      var attempt, delay := 1, FirstRetryDelay;
      while true
        invariant 1 <= attempt <= MaxRetries
        invariant cur == State()
        invariant Init(server, start) == Retry(server, cur, attempt, delay)
        decreases MaxRetries - attempt
      {
        var a := server(attempts);
        RetryFirst(server, cur, attempt, delay);
        attempts := attempts + 1;
        if !a.CreateFailed? {
          pool := Some(a.pool);
        }
        cur := Step(cur, a);
        if a.Connected? {
          activeConnections := a.holders;
          return Ok(());
        }
        if !a.exc.IsException() || attempt == MaxRetries {
          return Raise(a.exc);
        }
        sleeps := sleeps + [delay];
        cur := cur.(sleeps := cur.sleeps + [delay]);
        delay := delay * 2;
        attempt := attempt + 1;
      }
    }

    /** `close_db()`, where `closing` is what `await pool.close()` does. */
    method CloseDb(closing: Outcome<()>) returns (r: Outcome<()>)
      modifies this`pool
      ensures old(pool).None? ==> r == Ok(()) && pool == None
      ensures old(pool).Some? ==> r == closing && pool == (if closing.Ok? then None else old(pool))
    {
      r := Ok(());
      if pool.Some? {
        r := closing;
        if closing.Ok? {
          pool := None;
        }
      }
    }

    /** `_instrument_db_call(operation, func)`, where `answer` is what
        `await func(...)` does and `holders` is `len(pool._holders)` in the
        `finally` block. */
    method Instrument<T>(operation: string, answer: Outcome<T>, holders: nat) returns (r: Outcome<T>)
      modifies this`ops, this`durations, this`activeConnections
      ensures old(pool).None? ==> r == Raise(RuntimeError(PoolNotInitialized)) && unchanged(this)
      ensures old(pool).Some? ==> r == answer && Recorded(operation, answer, holders)
    {
      if pool.None? {
        return Raise(RuntimeError(PoolNotInitialized));
      }
      if answer.Ok? {
        ops := ops + multiset{OpKey(operation, StatusSuccess)};
      } else if answer.exc.IsException() {
        ops := ops + multiset{OpKey(operation, StatusError)};
      }
      durations := durations + multiset{operation};
      if pool.Some? {
        activeConnections := holders;
      }
      r := answer;
    }

    /** `fetch(query)`: the rows the pool answered, each as a dictionary. */
    method Fetch(query: string, answer: Outcome<seq<Record>>, holders: nat) returns (r: Outcome<seq<RowDict>>)
      modifies this`ops, this`durations, this`activeConnections
      ensures old(pool).None? ==> r == Raise(RuntimeError(PoolNotInitialized)) && unchanged(this)
      ensures old(pool).Some? ==> r == Map(answer, (recs: seq<Record>) => Rows(recs)) && Recorded("select", answer, holders)
    {
      if pool.None? {
        return Raise(RuntimeError(PoolNotInitialized));
      }
      var rows := Instrument("select", answer, holders);
      r := Map(rows, (recs: seq<Record>) => Rows(recs));
    }

    /** `fetchrow(query)`: the first row as a dictionary, or `None`. */
    method FetchRow(query: string, answer: Outcome<Option<Record>>, holders: nat) returns (r: Outcome<Option<RowDict>>)
      modifies this`ops, this`durations, this`activeConnections
      ensures old(pool).None? ==> r == Raise(RuntimeError(PoolNotInitialized)) && unchanged(this)
      ensures old(pool).Some? ==> r == Map(answer, AsRow) && Recorded("select", answer, holders)
    {
      if pool.None? {
        return Raise(RuntimeError(PoolNotInitialized));
      }
      var row := Instrument("select", answer, holders);
      r := Map(row, AsRow);
    }

    /** `execute(query)`: the status string of the command, counted under
        the query's leading word. */
    method Execute(query: string, answer: Outcome<string>, holders: nat) returns (r: Outcome<string>)
      modifies this`ops, this`durations, this`activeConnections
      ensures old(pool).None? ==> r == Raise(RuntimeError(PoolNotInitialized)) && unchanged(this)
      ensures old(pool).Some? && OperationLabel(query).Raise? ==> r == Raise(IndexError) && unchanged(this)
      ensures old(pool).Some? && OperationLabel(query).Ok? ==>
        r == answer && Recorded(OperationLabel(query).value, answer, holders)
    {
      if pool.None? {
        return Raise(RuntimeError(PoolNotInitialized));
      }
      var operation := OperationLabel(query);
      if operation.Raise? {
        return Raise(operation.exc);
      }
      r := Instrument(operation.value, answer, holders);
    }

    /** `execute_returning(query)`: the returned row as a dictionary, or
        `None`, counted under "modify". */
    method ExecuteReturning(query: string, answer: Outcome<Option<Record>>, holders: nat)
      returns (r: Outcome<Option<RowDict>>)
      modifies this`ops, this`durations, this`activeConnections
      ensures old(pool).None? ==> r == Raise(RuntimeError(PoolNotInitialized)) && unchanged(this)
      ensures old(pool).Some? ==> r == Map(answer, AsRow) && Recorded("modify", answer, holders)
    {
      if pool.None? {
        return Raise(RuntimeError(PoolNotInitialized));
      }
      var row := Instrument("modify", answer, holders);
      r := Map(row, AsRow);
    }
  }
}
