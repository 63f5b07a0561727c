/** app/main.py: the start-up hook, which wraps `init_db` in a second retry
    loop with capped doubling and starts the CPU sampler only after a
    successful initialisation, and the shutdown hook, which cancels and
    awaits the background tasks in order. */
module App {
  import opened Python
  import opened Database

  const StartupRetries: nat := 5
  const FirstStartupDelay: nat := 1
  const MaxStartupDelay: nat := 10

  /** A task made by `asyncio.create_task(collect_cpu_percent())`. */
  datatype Task = Task(id: nat)

  /** How a background task stands when shutdown comes to it. */
  datatype TaskEnd =
    | StillRunning     // cancelling it makes `await task` raise CancelledError
    | Finished         // it returned
    | Crashed(exc: Exc) // it ended by raising `exc`, which `await task` raises again

  /** `min(retry_delay * 2, 10)`. */
  function NextDelay(d: nat): (r: nat)
    ensures r <= MaxStartupDelay
    ensures d <= MaxStartupDelay / 2 ==> r == 2 * d
    ensures d >= MaxStartupDelay / 2 ==> r == MaxStartupDelay
  {
    if 2 * d < MaxStartupDelay then 2 * d else MaxStartupDelay
  }

  /** The delays `d, NextDelay(d), ...`, `k` of them. */
  function CappedBackoff(d: nat, k: nat): seq<nat>
    decreases k
  {
    if k == 0 then [] else [d] + CappedBackoff(NextDelay(d), k - 1)
  }

  /** What `_startup` did: its outcome, the database state it leaves, the
      delays it slept, what each of its `init_db` calls did, in order, the
      number of the last call it made, and whether it reached the start of
      the background task. */
  datatype StartupResult = StartupResult(
    outcome: Outcome<()>, state: PoolState, sleeps: seq<nat>, calls: seq<Outcome<()>>, last: nat,
    connected: bool)

  /** The `for attempt` loop of `_startup` from attempt `attempt` on, with
      `retry_delay == delay`, once that attempt's `init_db` call ended with
      `i`; `init` says what each `init_db` call does. The failure of the
      last attempt is re-raised and then caught by the outer `except
      Exception`, which only logs; a cancellation is caught by neither and
      leaves `_startup`. */
  function StartupFrom(init: PoolState -> InitResult, i: InitResult, attempt: nat, delay: nat): StartupResult
    requires 1 <= attempt <= StartupRetries
    decreases StartupRetries - attempt, 0
  {
    if i.outcome.Ok? then StartupResult(Ok(()), i.state, [], [i.outcome], attempt, true)
    else if !i.outcome.exc.IsException() then StartupResult(i.outcome, i.state, [], [i.outcome], attempt, false)
    else if attempt == StartupRetries then StartupResult(Ok(()), i.state, [], [i.outcome], attempt, false)
    else
      After([delay], [i.outcome], StartupLoop(init, i.state, attempt + 1, NextDelay(delay)))
  }

  /** The loop from attempt `attempt` on, in database state `s`: call
      `init_db`, then go on as its result says. */
  function StartupLoop(init: PoolState -> InitResult, s: PoolState, attempt: nat, delay: nat): StartupResult
    requires 1 <= attempt <= StartupRetries
    decreases StartupRetries - attempt, 1
  {
    StartupFrom(init, init(s), attempt, delay)
  }

  /** `r`, after the delays `slept` were slept and the calls `made` were
      made before it. */
  function After(slept: seq<nat>, made: seq<Outcome<()>>, r: StartupResult): StartupResult {
    r.(sleeps := slept + r.sleeps, calls := made + r.calls)
  }

  /** One more turn of the loop, after an `init_db` call with attempts left
      raised an `Exception`: sleep `delay`, then call `init_db` again. */
  lemma StartupRetryStep(init: PoolState -> InitResult, i: InitResult, attempt: nat, delay: nat,
                         slept: seq<nat>, made: seq<Outcome<()>>)
    requires 1 <= attempt < StartupRetries
    requires i.outcome.Raise? && i.outcome.exc.IsException()
    ensures After(slept, made, StartupFrom(init, i, attempt, delay))
      == After(slept + [delay], made + [i.outcome], StartupLoop(init, i.state, attempt + 1, NextDelay(delay)))
  {
    var rest := StartupLoop(init, i.state, attempt + 1, NextDelay(delay));
    assert slept + ([delay] + rest.sleeps) == (slept + [delay]) + rest.sleeps;
    assert made + ([i.outcome] + rest.calls) == (made + [i.outcome]) + rest.calls;
  }

  /** The loop ends after the call that returned, or that raised a
      cancellation, or that was the last. */
  lemma StartupStop(init: PoolState -> InitResult, i: InitResult, attempt: nat, delay: nat,
                    slept: seq<nat>, made: seq<Outcome<()>>)
    requires 1 <= attempt <= StartupRetries
    requires i.outcome.Ok? || !i.outcome.exc.IsException() || attempt == StartupRetries
    ensures After(slept, made, StartupFrom(init, i, attempt, delay))
      == StartupResult(if i.outcome.Ok? || i.outcome.exc.IsException() then Ok(()) else i.outcome,
                       i.state, slept, made + [i.outcome], attempt, i.outcome.Ok?)
  {
    assert slept + [] == slept;
  }

  /** Whether some `init_db` call among `calls` returned. */
  predicate Returned(calls: seq<Outcome<()>>) {
    exists k :: 0 <= k < |calls| && calls[k].Ok?
  }

  /** The calls of the loop from attempt `attempt` on: the first is `i`,
      every call but the last raised an `Exception`, so the loop stops at
      the first call that returns; the task is started exactly when the
      last call returned, that is, exactly when some call returned; a
      swallowed failure ends the loop only as the fifth call. */
  lemma {:induction false} StartupLoopCalls(init: PoolState -> InitResult, i: InitResult, attempt: nat, delay: nat)
    requires 1 <= attempt <= StartupRetries
    ensures var r := StartupFrom(init, i, attempt, delay);
      && |r.calls| == r.last - attempt + 1
      && r.calls[0] == i.outcome
      && (forall k :: 0 <= k < |r.calls| - 1 ==> r.calls[k].Raise? && r.calls[k].exc.IsException())
      && (r.connected <==> r.calls[|r.calls| - 1].Ok?)
      && (r.connected <==> Returned(r.calls))
      && (r.outcome == if r.calls[|r.calls| - 1].Raise? && !r.calls[|r.calls| - 1].exc.IsException()
                       then r.calls[|r.calls| - 1] else Ok(()))
      && (!r.connected && r.outcome.Ok? ==> r.last == StartupRetries)
    decreases StartupRetries - attempt
  {
    var r := StartupFrom(init, i, attempt, delay);
    if i.outcome.Raise? && i.outcome.exc.IsException() && attempt < StartupRetries {
      var rest := StartupLoop(init, i.state, attempt + 1, NextDelay(delay));
      StartupLoopCalls(init, init(i.state), attempt + 1, NextDelay(delay));
      assert r.calls == [i.outcome] + rest.calls;
      forall k | 0 < k < |r.calls|
        ensures r.calls[k] == rest.calls[k - 1]
      {
      }
      if Returned(r.calls) {
        var k :| 0 <= k < |r.calls| && r.calls[k].Ok?;
        assert rest.calls[k - 1].Ok?;
      }
      if rest.connected {
        assert r.calls[|r.calls| - 1].Ok?;
      }
    } else {
      assert r.calls == [i.outcome];
    }
  }

  /** `_startup()` from database state `s`. */
  function StartupRun(init: PoolState -> InitResult, s: PoolState): StartupResult {
    StartupLoop(init, s, 1, FirstStartupDelay)
  }

  /** An `init_db` that makes at most five connection attempts. */
  ghost predicate Budgeted(init: PoolState -> InitResult) {
    forall s: PoolState :: s.attempts <= init(s).state.attempts <= s.attempts + MaxRetries
  }

  /** The modelled `init_db` is budgeted. */
  lemma InitIsBudgeted(server: nat -> Attempt, init: PoolState -> InitResult)
    requires forall s :: init(s) == Init(server, s)
    ensures Budgeted(init)
  {
    forall s: PoolState
      ensures s.attempts <= init(s).state.attempts <= s.attempts + MaxRetries
    {
      InitBounds(server, s);
    }
  }

  lemma {:induction false} CappedBackoffBounded(d: nat, k: nat)
    requires d <= MaxStartupDelay
    ensures forall x :: x in CappedBackoff(d, k) ==> x <= MaxStartupDelay
    decreases k
  {
    if k > 0 {
      CappedBackoffBounded(NextDelay(d), k - 1);
    }
  }

  lemma {:induction false} CappedBackoffPrefix(d: nat, k: nat, m: nat)
    requires k <= m
    ensures |CappedBackoff(d, m)| == m
    ensures CappedBackoff(d, k) == CappedBackoff(d, m)[..k]
    decreases m
  {
    if m > 0 {
      CappedBackoffPrefix(NextDelay(d), if k == 0 then 0 else k - 1, m - 1);
    }
  }

  /** The loop makes calls numbered `attempt` up to at most five; an
      `Exception` never leaves it; and it connects only with an `Ok`. */
  lemma {:induction false} StartupLoopOutcome(init: PoolState -> InitResult, i: InitResult, attempt: nat, delay: nat)
    requires 1 <= attempt <= StartupRetries
    ensures var r := StartupFrom(init, i, attempt, delay);
      && attempt <= r.last <= StartupRetries
      && (r.outcome.Raise? ==> !r.outcome.exc.IsException() && !r.connected)
      && (r.connected ==> r.outcome.Ok?)
    decreases StartupRetries - attempt
  {
    if i.outcome.Raise? && i.outcome.exc.IsException() && attempt < StartupRetries {
      StartupLoopOutcome(init, init(i.state), attempt + 1, NextDelay(delay));
    }
  }

  /** The loop sleeps once between consecutive calls, with the capped
      delays, and it stops early only at a success or a cancellation. */
  lemma {:induction false} StartupLoopSleeps(init: PoolState -> InitResult, i: InitResult, attempt: nat, delay: nat)
    requires 1 <= attempt <= StartupRetries
    ensures attempt <= StartupFrom(init, i, attempt, delay).last
    ensures var r := StartupFrom(init, i, attempt, delay);
      && r.sleeps == CappedBackoff(delay, r.last - attempt)
      && (r.last < StartupRetries ==> r.connected || r.outcome.Raise?)
    decreases StartupRetries - attempt
  {
    StartupLoopOutcome(init, i, attempt, delay);
    if i.outcome.Ok? || !i.outcome.exc.IsException() || attempt == StartupRetries {
      assert CappedBackoff(delay, 0) == [];
    } else {
      StartupLoopSleeps(init, init(i.state), attempt + 1, NextDelay(delay));
    }
  }

  /** With a budgeted `init_db`, every call makes at most five connection
      attempts. */
  lemma {:induction false} StartupLoopAttempts(init: PoolState -> InitResult, i: InitResult, attempt: nat, delay: nat)
    requires Budgeted(init)
    requires 1 <= attempt <= StartupRetries
    ensures var r := StartupFrom(init, i, attempt, delay);
      i.state.attempts <= r.state.attempts <= i.state.attempts + MaxRetries * (r.last - attempt)
    decreases StartupRetries - attempt
  {
    if i.outcome.Raise? && i.outcome.exc.IsException() && attempt < StartupRetries {
      StartupLoopAttempts(init, init(i.state), attempt + 1, NextDelay(delay));
    }
  }

  /** `_startup` calls `init_db` at most five times; it sleeps 1,
      2, 4, 8 seconds between its calls (a prefix of these), never more than
      10; every call but the last raised an `Exception`, so it stops at the
      first call that returns, and it starts the sampler exactly when some
      call returned; when all five calls fail it returns without a task;
      and it never lets an `Exception` escape. */
  lemma StartupFacts(init: PoolState -> InitResult, s: PoolState)
    ensures var r := StartupRun(init, s);
      && 1 <= r.last <= StartupRetries
      && r.sleeps == [1, 2, 4, 8][..r.last - 1]
      && (forall x :: x in r.sleeps ==> x <= MaxStartupDelay)
      && (r.last < StartupRetries ==> r.connected || r.outcome.Raise?)
      && (r.outcome.Raise? ==> r.outcome.exc == CancelledError)
      && |r.calls| == r.last && r.calls[0] == init(s).outcome
      && (forall k :: 0 <= k < |r.calls| - 1 ==> r.calls[k].Raise? && r.calls[k].exc.IsException())
      && (r.connected <==> Returned(r.calls))
      && (!r.connected && r.outcome.Ok? ==>
            |r.calls| == StartupRetries && forall k :: 0 <= k < |r.calls| ==> r.calls[k].Raise? && r.calls[k].exc.IsException())
  {
    var r := StartupRun(init, s);
    StartupLoopCalls(init, init(s), 1, FirstStartupDelay);
    StartupLoopOutcome(init, init(s), 1, FirstStartupDelay);
    StartupLoopSleeps(init, init(s), 1, FirstStartupDelay);
    CappedBackoffPrefix(FirstStartupDelay, r.last - 1, StartupRetries - 1);
    assert CappedBackoff(FirstStartupDelay, StartupRetries - 1) == [1, 2, 4, 8];
    CappedBackoffBounded(FirstStartupDelay, r.last - 1);
  }

  /** With a budgeted `init_db`, `_startup` makes at most 25 connection
      attempts in all, five for each of its calls. */
  lemma StartupAttemptsBound(init: PoolState -> InitResult, s: PoolState)
    requires Budgeted(init)
    ensures var r := StartupRun(init, s);
      s.attempts <= r.state.attempts <= s.attempts + MaxRetries * r.last
      && r.state.attempts - s.attempts <= StartupRetries * MaxRetries
  {
    StartupLoopOutcome(init, init(s), 1, FirstStartupDelay);
    StartupLoopAttempts(init, init(s), 1, FirstStartupDelay);
  }

  /** With the modelled `init_db`: when the first call fails after a probe
      has assigned the pool, the second call returns at once, so `_startup`
      starts the sampler although no attempt ever connected. */
  lemma StartupAfterProbeFailure(server: nat -> Attempt, init: PoolState -> InitResult, s: PoolState)
    requires forall s :: init(s) == Init(server, s)
    requires s.pool.None?
    requires init(s).outcome.Raise? && init(s).outcome.exc.IsException()
    requires init(s).state.pool.Some?
    ensures var r := StartupRun(init, s);
      && r.connected && r.last == 2 && r.sleeps == [1] && r.state == init(s).state
      && r.calls == [init(s).outcome, Ok(())]
  {
    var i := init(s);
    InitBounds(server, i.state);
    assert init(i.state) == InitResult(Ok(()), i.state);
    assert StartupLoop(init, i.state, 2, 2) == StartupResult(Ok(()), i.state, [], [Ok(())], 2, true);
  }

  /** `_startup` as written: `os` is used at its line 67 but never
      imported, so a NameError is raised inside the outer `try` before the
      loop and swallowed by its `except`: no `init_db` call, no task. */
  function StartupAsWritten(s: PoolState): StartupResult {
    StartupResult(Ok(()), s, [], [], 0, false)
  }

  /** As written, `_startup` never initialises the database nor starts the
      sampler, even when the first attempt would connect. */
  lemma StartupAsWrittenNeverConnects(server: nat -> Attempt, init: PoolState -> InitResult, s: PoolState)
    requires forall s :: init(s) == Init(server, s)
    requires s.pool.None? && server(s.attempts).Connected?
    ensures StartupAsWritten(s).calls == [] && !StartupAsWritten(s).connected
    ensures StartupAsWritten(s).state.pool.None?
    ensures StartupRun(init, s).connected && StartupRun(init, s).calls == [Ok(())]
  {
    assert init(s) == Init(server, s);
  }

  /** Whether `await task` raises past `suppress(asyncio.CancelledError)`. */
  predicate Escapes(e: TaskEnd) {
    e.Crashed? && e.exc != CancelledError
  }

  /** What `_shutdown` did: how many tasks it cancelled, and its outcome. */
  datatype ShutdownResult = ShutdownResult(cancelled: nat, outcome: Outcome<()>)

  /** The `for task in _background_tasks` loop of `_shutdown`. */
  function ShutdownRun(tasks: seq<Task>, ended: Task -> TaskEnd): (r: ShutdownResult)
    ensures r.cancelled <= |tasks|
  {
    if tasks == [] then ShutdownResult(0, Ok(()))
    else if Escapes(ended(tasks[0])) then ShutdownResult(1, Raise(ended(tasks[0]).exc))
    else
      var rest := ShutdownRun(tasks[1..], ended);
      rest.(cancelled := rest.cancelled + 1)
  }

  /** `_shutdown` cancels and awaits the tasks in list order until one of
      them re-raises its own failure: it returns exactly when none does, and
      then it has cancelled every task; otherwise it stops at the first that
      does, with that failure. */
  lemma {:induction false} ShutdownFacts(tasks: seq<Task>, ended: Task -> TaskEnd)
    ensures var r := ShutdownRun(tasks, ended);
      && (r.outcome.Ok? <==> forall i :: 0 <= i < |tasks| ==> !Escapes(ended(tasks[i])))
      && (r.outcome.Ok? ==> r.cancelled == |tasks|)
      && (forall i :: 0 <= i < r.cancelled - 1 ==> !Escapes(ended(tasks[i])))
      && (r.outcome.Raise? ==>
            0 < r.cancelled && Escapes(ended(tasks[r.cancelled - 1]))
            && r.outcome.exc == ended(tasks[r.cancelled - 1]).exc)
  {
    if tasks != [] && !Escapes(ended(tasks[0])) {
      ShutdownFacts(tasks[1..], ended);
      var r := ShutdownRun(tasks[1..], ended);
      forall i | 0 <= i < |tasks| && i != 0
        ensures tasks[i] == tasks[1..][i - 1]
      {
      }
    }
  }

  /** The application's lifecycle state. */
  class App {
    const db: Db
    /** `_background_tasks`. */
    var tasks: seq<Task>
    /** The delays of the `asyncio.sleep` calls `_startup` made. */
    var sleeps: seq<nat>
    /** The identity the next task `create_task` makes will have. */
    var nextTask: nat
    /** The `task.cancel()` calls of `_shutdown`, in order; each task is
        awaited right after it is cancelled. */
    var cancelled: seq<Task>

    constructor (server: nat -> Attempt)
      ensures fresh(db) && db.server == server && db.Valid() && db.State() == PoolState(None, 0, [], 0)
      ensures db.ops == multiset{} && db.durations == multiset{}
      ensures tasks == [] && sleeps == [] && nextTask == 0 && cancelled == []
    {
      db := new Db(server);
      tasks := [];
      sleeps := [];
      nextTask := 0;
      cancelled := [];
    }

    /** `_startup()`: its outcome is `Ok` unless a cancellation escaped,
        and the sampler task is appended, once, exactly when one of its
        `init_db` calls returned; otherwise `_background_tasks` is
        unchanged. */
    method Startup() returns (r: Outcome<()>)
      requires db.Valid()
      modifies this`tasks, this`sleeps, this`nextTask
      modifies db`pool, db`attempts, db`sleeps, db`activeConnections
      ensures var run := StartupRun(db.initDb, old(db.State()));
        && r == run.outcome
        && db.State() == run.state
        && sleeps == old(sleeps) + run.sleeps
        && tasks == old(tasks) + (if run.connected then [Task(old(nextTask))] else [])
        && nextTask == old(nextTask) + (if run.connected then 1 else 0)
        && (run.connected <==> Returned(run.calls))
    {
      StartupLoopCalls(db.initDb, db.initDb(db.State()), 1, FirstStartupDelay);
      var connected;
      r, connected := InitWithRetries();
      if connected {
        tasks := tasks + [Task(nextTask)];
        nextTask := nextTask + 1;
      }
    }

    /** The `for attempt` loop of `_startup`, with the outer `except
        Exception` that swallows the last failure. */
    method InitWithRetries() returns (r: Outcome<()>, connected: bool)
      requires db.Valid()
      modifies this`sleeps, db`pool, db`attempts, db`sleeps, db`activeConnections
      ensures var run := StartupRun(db.initDb, old(db.State()));
        && r == run.outcome && connected == run.connected
        && db.State() == run.state && sleeps == old(sleeps) + run.sleeps
    {
      ghost var start := db.State();
      ghost var slept: seq<nat> := [];
      ghost var made: seq<Outcome<()>> := [];
      ghost var now, last := start, InitResult(Ok(()), start);
      var attempt, delay := 1, FirstStartupDelay;
      while true
        invariant 1 <= attempt <= StartupRetries
        invariant sleeps == old(sleeps) + slept
        invariant now == db.State()
        invariant StartupRun(db.initDb, start) == After(slept, made, StartupLoop(db.initDb, now, attempt, delay))
        decreases StartupRetries - attempt
      {
        ghost var before := now;
        var x := db.InitDb();
        now := db.State();
        last := InitResult(x, now);
        assert StartupLoop(db.initDb, before, attempt, delay) == StartupFrom(db.initDb, last, attempt, delay);
        if x.Ok? {
          r, connected := Ok(()), true;
          break;
        }
        if !x.exc.IsException() {
          r, connected := x, false;
          break;
        }
        if attempt == StartupRetries {
          r, connected := Ok(()), false;
          break;
        }
        StartupRetryStep(db.initDb, last, attempt, delay, slept, made);
        sleeps := sleeps + [delay];
        slept := slept + [delay];
        made := made + [x];
        delay := NextDelay(delay);
        attempt := attempt + 1;
      }
      StartupStop(db.initDb, last, attempt, delay, slept, made);
    }

    /** `_shutdown(ended)`, where `ended(t)` says how task `t` stands. It
        does not call `close_db` and does not clear `_background_tasks`. */
    method Shutdown(ended: Task -> TaskEnd) returns (r: Outcome<()>)
      modifies this`cancelled
      ensures var run := ShutdownRun(tasks, ended);
        cancelled == old(cancelled) + tasks[..run.cancelled] && r == run.outcome
    {
      var i := 0;
      while i < |tasks|
        invariant 0 <= i <= |tasks|
        invariant cancelled == old(cancelled) + tasks[..i]
        invariant ShutdownRun(tasks, ended)
          == var rest := ShutdownRun(tasks[i..], ended); rest.(cancelled := rest.cancelled + i)
      {
        var task := tasks[i];
        cancelled := cancelled + [task];
        assert tasks[..i + 1] == tasks[..i] + [task];
        assert tasks[i..][1..] == tasks[i + 1..];
        var standing := ended(task);
        if Escapes(standing) {
          return Raise(standing.exc);
        }
        i := i + 1;
      }
      r := Ok(());
    }
  }
}
