/**
 * The mysqli statement's life cycle: `prepare` only marks the statement,
 * `execute` merges the parameters, inlines them into the SQL and sends the
 * query, retrying on lost connections and deadlocks.
 *
 * The asynchronous query is an abstract answer per attempt; reconnecting
 * the parent link and sending the query are recorded as effects.
 */
module MysqliStatement {
  import opened Wrappers
  import opened Php
  import opened ParameterContainer
  import opened MysqliBinding
  import ParentConnection

  // ---------------------------------------------------------------------------
  // The retry policy
  // ---------------------------------------------------------------------------

  /** A `mysqli_sql_exception`: its code and message. */
  datatype SqlFailure = SqlFailure(code: int, message: string)

  /** What one attempt of the query gives: a result, or the exception it throws. */
  datatype Answer = Rows(result: Value) | Failed(failure: SqlFailure)

  /** What the statement does to the outside world, in order. */
  datatype Effect = Query(sql: string) | Reconnect

  /**
   * The exceptions the statement raises; what the parent link's
   * `reConnect()` throws leaves the statement as it is.
   */
  datatype StatementError =
    | AlreadyPrepared
    | Runtime(message: string, previous: Option<SqlFailure>)
    | LinkFailed(error: ParentConnection.LinkError)
    | StoreResultOnNull  // PHP's `\Error` "Call to a member function store_result() on null"

  const AlreadyPreparedMessage: string := "This statement has already been prepared"

  /** 2006 "server has gone away" and 2013 "lost connection": reconnect, then retry. */
  predicate ConnectionError(code: int) {
    code == 2006 || code == 2013
  }

  /** The codes worth another attempt: the connection errors and 1213 "deadlock found". */
  predicate RetryError(code: int) {
    ConnectionError(code) || code == 1213
  }

  /** Whether the attempt with `tries` retries behind it is retried. */
  predicate Retried(a: Answer, tries: nat, maxRetries: int) {
    a.Failed? && tries < maxRetries && RetryError(a.failure.code)
  }

  /**
   * What each `reConnect()` throws, if anything: `reconnect(k)` stands for
   * the one made after attempt `k`.
   */
  type ReconnectOutcomes = nat -> Option<ParentConnection.LinkError>

  /** The attempt is retried after a lost connection, and the reconnect throws. */
  predicate ReconnectFails(a: Answer, tries: nat, maxRetries: int, reconnect: ReconnectOutcomes) {
    Retried(a, tries, maxRetries) && ConnectionError(a.failure.code) && reconnect(tries).Some?
  }

  /** Whether the loop goes on after the attempt. */
  predicate Continues(a: Answer, tries: nat, maxRetries: int, reconnect: ReconnectOutcomes) {
    Retried(a, tries, maxRetries) && !ReconnectFails(a, tries, maxRetries, reconnect)
  }

  /** How an attempt that is not retried ends the loop. */
  function Finish(a: Answer): (r: Result<Value, StatementError>)
    ensures a.Rows? ==> r == Ok(a.result)
    ensures a.Failed? ==> r == Err(Runtime(a.failure.message, Some(a.failure)))
  {
    match a
    case Rows(v) => Ok(v)
    case Failed(f) => Err(Runtime(f.message, Some(f)))
  }

  /** How an attempt that does not continue the loop ends it: the reconnect's exception, or `Finish`. */
  function Ending(a: Answer, tries: nat, maxRetries: int, reconnect: ReconnectOutcomes): (r: Result<Value, StatementError>)
    ensures ReconnectFails(a, tries, maxRetries, reconnect) ==> r == Err(LinkFailed(reconnect(tries).value))
    ensures !Retried(a, tries, maxRetries) ==> r == Finish(a)
  {
    if ReconnectFails(a, tries, maxRetries, reconnect) then Err(LinkFailed(reconnect(tries).value)) else Finish(a)
  }

  /** What one attempt does: it sends the query, and a retried lost connection reconnects. */
  function AttemptEffects(sql: string, a: Answer, tries: nat, maxRetries: int): seq<Effect> {
    [Query(sql)] + (if Retried(a, tries, maxRetries) && ConnectionError(a.failure.code) then [Reconnect] else [])
  }

  datatype RetryOutcome = RetryOutcome(result: Result<Value, StatementError>, effects: seq<Effect>)

  /**
   * The reference reading of `executeWithRetry` from the attempt with
   * `tries` retries behind it: the query is sent, and a retried failure
   * reconnects first when it is a connection error; a reconnect that throws
   * ends the loop.
   */
  function RetryFrom(sql: string, answer: nat -> Answer, reconnect: ReconnectOutcomes, maxRetries: int, tries: nat): RetryOutcome
    decreases if tries < maxRetries then maxRetries - tries else 0
  {
    var a := answer(tries);
    if Continues(a, tries, maxRetries, reconnect) then
      var rest := RetryFrom(sql, answer, reconnect, maxRetries, tries + 1);
      RetryOutcome(rest.result, AttemptEffects(sql, a, tries, maxRetries) + rest.effects)
    else RetryOutcome(Ending(a, tries, maxRetries, reconnect), AttemptEffects(sql, a, tries, maxRetries))
  }

  /** The same reading with the effects so far carried along, as the loop does. */
  function RetryTrace(sql: string, answer: nat -> Answer, reconnect: ReconnectOutcomes, maxRetries: int, tries: nat, before: seq<Effect>): RetryOutcome
    decreases if tries < maxRetries then maxRetries - tries else 0
  {
    var a := answer(tries);
    if Continues(a, tries, maxRetries, reconnect) then
      RetryTrace(sql, answer, reconnect, maxRetries, tries + 1, before + AttemptEffects(sql, a, tries, maxRetries))
    else RetryOutcome(Ending(a, tries, maxRetries, reconnect), before + AttemptEffects(sql, a, tries, maxRetries))
  }

  /** Carrying the effects along gives the reference outcome after them. */
  lemma {:induction false} RetryTraceFrom(sql: string, answer: nat -> Answer, reconnect: ReconnectOutcomes, maxRetries: int, tries: nat, before: seq<Effect>)
    ensures var o := RetryFrom(sql, answer, reconnect, maxRetries, tries);
      RetryTrace(sql, answer, reconnect, maxRetries, tries, before) == RetryOutcome(o.result, before + o.effects)
    decreases if tries < maxRetries then maxRetries - tries else 0
  {
    var a := answer(tries);
    if Continues(a, tries, maxRetries, reconnect) {
      var step := AttemptEffects(sql, a, tries, maxRetries);
      RetryTraceFrom(sql, answer, reconnect, maxRetries, tries + 1, before + step);
      var later := RetryFrom(sql, answer, reconnect, maxRetries, tries + 1).effects;
      assert (before + step) + later == before + (step + later);
    }
  }

  /** `executeWithRetry()`: the do-while loop over attempts. */
  method ExecuteWithRetry(sql: string, answer: nat -> Answer, reconnect: ReconnectOutcomes, maxRetries: int)
    returns (result: Result<Value, StatementError>, effects: seq<Effect>, attempts: nat)
    ensures RetryOutcome(result, effects) == RetryFrom(sql, answer, reconnect, maxRetries, 0)
    ensures 1 <= attempts <= (if maxRetries > 0 then maxRetries else 0) + 1
    ensures forall j :: 0 <= j < attempts - 1 ==> Continues(answer(j), j, maxRetries, reconnect)
    ensures !Continues(answer(attempts - 1), attempts - 1, maxRetries, reconnect)
    ensures result == Ending(answer(attempts - 1), attempts - 1, maxRetries, reconnect)
    ensures result.Err? && result.error.LinkFailed? ==> reconnect(attempts - 1) == Some(result.error.error)
  {
    var tries: nat := 0;
    var before: seq<Effect> := [];
    var a := answer(0);
    while Continues(a, tries, maxRetries, reconnect)
      invariant a == answer(tries)
      invariant tries <= (if maxRetries > 0 then maxRetries else 0)
      invariant forall j :: 0 <= j < tries ==> Continues(answer(j), j, maxRetries, reconnect)
      invariant RetryTrace(sql, answer, reconnect, maxRetries, tries, before) == RetryTrace(sql, answer, reconnect, maxRetries, 0, [])
      decreases maxRetries - tries
    {
      before := before + AttemptEffects(sql, a, tries, maxRetries);
      tries := tries + 1;
      a := answer(tries);
    }
    result := Ending(a, tries, maxRetries, reconnect);
    effects := before + AttemptEffects(sql, a, tries, maxRetries);
    attempts := tries + 1;
    RetryTraceFrom(sql, answer, reconnect, maxRetries, 0, []);
    assert [] + RetryFrom(sql, answer, reconnect, maxRetries, 0).effects == RetryFrom(sql, answer, reconnect, maxRetries, 0).effects;
  }

  /** How many times the query is sent. */
  function Queries(effects: seq<Effect>): nat {
    if |effects| == 0 then 0 else Queries(effects[..|effects| - 1]) + (if effects[|effects| - 1].Query? then 1 else 0)
  }

  /** How many reconnects happen. */
  function Reconnects(effects: seq<Effect>): nat {
    if |effects| == 0 then 0 else Reconnects(effects[..|effects| - 1]) + (if effects[|effects| - 1].Reconnect? then 1 else 0)
  }

  lemma {:induction false} CountsConcat(a: seq<Effect>, b: seq<Effect>)
    ensures Queries(a + b) == Queries(a) + Queries(b)
    ensures Reconnects(a + b) == Reconnects(a) + Reconnects(b)
    decreases |b|
  {
    if |b| == 0 {
      assert a + b == a;
    } else {
      assert (a + b)[..|a + b| - 1] == a + b[..|b| - 1];
      CountsConcat(a, b[..|b| - 1]);
    }
  }

  /** The number of connection errors among the answers to attempts `from` .. `to - 1`. */
  function ConnectionErrorsBetween(answer: nat -> Answer, from: nat, to: nat): nat
    decreases if from < to then to - from else 0
  {
    if from >= to then 0
    else
      var here := if answer(from).Failed? && ConnectionError(answer(from).failure.code) then 1 else 0;
      here + ConnectionErrorsBetween(answer, from + 1, to)
  }

  /** The attempt at which the loop stops: the first one that does not continue it. */
  function StopAt(answer: nat -> Answer, reconnect: ReconnectOutcomes, maxRetries: int, tries: nat): (n: nat)
    ensures n >= tries
    decreases if tries < maxRetries then maxRetries - tries else 0
  {
    if Continues(answer(tries), tries, maxRetries, reconnect) then StopAt(answer, reconnect, maxRetries, tries + 1) else tries
  }

  lemma AttemptCounts(sql: string, a: Answer, tries: nat, maxRetries: int)
    ensures var e := AttemptEffects(sql, a, tries, maxRetries);
      var reconnects := Retried(a, tries, maxRetries) && ConnectionError(a.failure.code);
      && Queries(e) == 1
      && Reconnects(e) == (if reconnects then 1 else 0)
      && e[|e| - 1] == (if reconnects then Reconnect else Query(sql))
  {
    assert [Query(sql)][..0] == [];
    assert Queries([Query(sql)]) == 1 && Reconnects([Query(sql)]) == 0;
    if Retried(a, tries, maxRetries) && ConnectionError(a.failure.code) {
      assert AttemptEffects(sql, a, tries, maxRetries) == [Query(sql), Reconnect];
      assert [Query(sql), Reconnect][..1] == [Query(sql)];
    } else {
      assert AttemptEffects(sql, a, tries, maxRetries) == [Query(sql)];
    }
  }

  /**
   * The retry loop is bounded and its trace is what the policy says: one
   * query per attempt, at most `maxRetries + 1` of them, a reconnect for
   * each retried connection error and for nothing else, and the ending of
   * the last attempt as the result: its reconnect's exception when that
   * reconnect throws, otherwise its own outcome.
   */
  lemma {:induction false} RetryShape(sql: string, answer: nat -> Answer, reconnect: ReconnectOutcomes, maxRetries: int, tries: nat)
    ensures var n := StopAt(answer, reconnect, maxRetries, tries);
      var o := RetryFrom(sql, answer, reconnect, maxRetries, tries);
      var lost := ReconnectFails(answer(n), n, maxRetries, reconnect);
      && n <= (if tries < maxRetries then maxRetries else tries)
      && (lost ==> n < maxRetries)
      && Queries(o.effects) == n - tries + 1
      && Reconnects(o.effects) == ConnectionErrorsBetween(answer, tries, n) + (if lost then 1 else 0)
      && o.result == Ending(answer(n), n, maxRetries, reconnect)
      && |o.effects| > 0 && o.effects[|o.effects| - 1] == (if lost then Reconnect else Query(sql))
    decreases if tries < maxRetries then maxRetries - tries else 0
  {
    var a := answer(tries);
    AttemptCounts(sql, a, tries, maxRetries);
    if Continues(a, tries, maxRetries, reconnect) {
      RetryShape(sql, answer, reconnect, maxRetries, tries + 1);
      var step := AttemptEffects(sql, a, tries, maxRetries);
      var rest := RetryFrom(sql, answer, reconnect, maxRetries, tries + 1).effects;
      CountsConcat(step, rest);
      assert (step + rest)[|step + rest| - 1] == rest[|rest| - 1];
    }
  }

  /** A deadlock is retried without reconnecting; a lost connection reconnects first, and a reconnect that throws ends the loop with that exception. */
  lemma RetryReconnects(sql: string, answer: nat -> Answer, reconnect: ReconnectOutcomes, maxRetries: int, msg: string)
    requires 0 < maxRetries
    ensures answer(0) == Failed(SqlFailure(1213, msg)) ==>
      RetryFrom(sql, answer, reconnect, maxRetries, 0).effects == [Query(sql)] + RetryFrom(sql, answer, reconnect, maxRetries, 1).effects
    ensures (answer(0) == Failed(SqlFailure(2006, msg)) || answer(0) == Failed(SqlFailure(2013, msg))) && reconnect(0).None? ==>
      RetryFrom(sql, answer, reconnect, maxRetries, 0).effects == [Query(sql), Reconnect] + RetryFrom(sql, answer, reconnect, maxRetries, 1).effects
    ensures (answer(0) == Failed(SqlFailure(2006, msg)) || answer(0) == Failed(SqlFailure(2013, msg))) && reconnect(0).Some? ==>
      RetryFrom(sql, answer, reconnect, maxRetries, 0) == RetryOutcome(Err(LinkFailed(reconnect(0).value)), [Query(sql), Reconnect])
  {
    assert [Query(sql)] + [Reconnect] == [Query(sql), Reconnect];
  }

  /** What `reConnect()` on `link` throws, if anything, given the report of each reconnect. */
  function LinkReconnects(link: ParentConnection.Link, reports: nat -> ParentConnection.Report): ReconnectOutcomes {
    (k: nat) => var r := ParentConnection.ReConnect(link, reports(k)); if r.Err? then Some(r.error) else None
  }

  /**
   * A lost connection whose reconnect cannot connect ends the statement with
   * the link's "Connection error", unwrapped, after one query and one
   * reconnect.
   */
  lemma ReconnectRefused(sql: string, answer: nat -> Answer, link: ParentConnection.Link,
                         reports: nat -> ParentConnection.Report, maxRetries: int, msg: string)
    requires 0 < maxRetries && link.hasResource
    requires answer(0) == Failed(SqlFailure(2006, msg)) && reports(0).report != ParentConnection.Connected
    ensures RetryFrom(sql, answer, LinkReconnects(link, reports), maxRetries, 0)
      == RetryOutcome(Err(LinkFailed(ParentConnection.ConnectionError("Connection error", reports(0).errno, reports(0).error, reports(0).errno))),
                      [Query(sql), Reconnect])
  {
    RetryReconnects(sql, answer, LinkReconnects(link, reports), maxRetries, msg);
  }

  /** Once the retries are used up, even a retryable error surfaces, with its message and as the previous exception. */
  lemma RetriesExhausted(sql: string, answer: nat -> Answer, reconnect: ReconnectOutcomes, maxRetries: int, tries: nat)
    requires tries >= maxRetries && answer(tries).Failed?
    ensures RetryFrom(sql, answer, reconnect, maxRetries, tries)
      == RetryOutcome(Err(Runtime(answer(tries).failure.message, Some(answer(tries).failure))), [Query(sql)])
  {
  }

  /** Any other error code is never retried. */
  lemma OtherErrorsSurface(sql: string, answer: nat -> Answer, reconnect: ReconnectOutcomes, maxRetries: int, tries: nat)
    requires answer(tries).Failed? && !RetryError(answer(tries).failure.code)
    ensures RetryFrom(sql, answer, reconnect, maxRetries, tries).result == Err(Runtime(answer(tries).failure.message, Some(answer(tries).failure)))
    ensures |RetryFrom(sql, answer, reconnect, maxRetries, tries).effects| == 1
  {
  }

  // ---------------------------------------------------------------------------
  // prepare and execute
  // ---------------------------------------------------------------------------

  /** The statement's state: its SQL, whether it is prepared, its parameter container. */
  datatype Stmt = Stmt(sql: string, prepared: bool, container: Option<seq<Param>>, bufferResults: bool)

  /** `prepare()`: only marks the statement, and refuses to do it twice. */
  function Prepare(st: Stmt): (r: Result<Stmt, StatementError>)
    ensures st.prepared <==> r == Err(AlreadyPrepared)
    ensures r.Ok? ==> r.value == st.(prepared := true)
  {
    if st.prepared then Err(AlreadyPrepared) else Ok(st.(prepared := true))
  }

  lemma PrepareTwice(st: Stmt)
    requires Prepare(st).Ok?
    ensures Prepare(Prepare(st).value) == Err(AlreadyPrepared)
  {
  }

  /** The SQL sent: the statement's own SQL when the container is empty, else the binding as written. */
  function BoundSql(sql: string, params: seq<Param>, conv: Conversions): (r: string)
    ensures |params| == 0 ==> r == sql
  {
    if |params| > 0 then BindSqlAsWritten(sql, params, conv) else sql
  }

  /** What a successful `execute` hands to `createResult`: the result and whether it was buffered. */
  datatype Returned = Returned(result: Value, buffered: bool)

  /**
   * What `execute` leaves behind: the statement's state, its answer or the
   * exception it throws, and the effects it had.
   */
  datatype Executed = Executed(stmt: Stmt, answer: Result<Returned, StatementError>, effects: seq<Effect>)

  /**
   * The statement once `execute` has prepared it and merged its parameters,
   * before the query is sent; a failure from there on leaves it so.
   */
  function Merged(st: Stmt, args: Arguments): (m: Stmt)
    ensures m.sql == st.sql && m.bufferResults == st.bufferResults
    ensures m.prepared && Prepare(m) == Err(AlreadyPrepared)
    ensures m.container == Some(Merge(st.container, args))
  {
    st.(prepared := true, container := Some(Merge(st.container, args)))
  }

  /**
   * The intended `execute($parameters)`: buffering marks the result as
   * buffered and lets the statement be prepared again. `lastError` stands
   * for `mysqli_error()` when the query gives `false` rather than throwing.
   */
  function ExecuteIntended(st: Stmt, args: Arguments, conv: Conversions, answer: nat -> Answer, reconnect: ReconnectOutcomes,
                           maxRetries: int, lastError: string): (r: Executed)
    ensures r.stmt.sql == st.sql && r.stmt.container == Some(Merge(st.container, args))
    ensures r.answer.Err? ==> r.stmt == Merged(st, args)
    ensures r.answer.Ok? ==> r.stmt.prepared == !st.bufferResults && r.answer.value.buffered == st.bufferResults
    ensures r.answer.Ok? ==> r.answer.value.result != Bool(false)
    ensures r.answer.Err? ==> r.answer.error.Runtime? || r.answer.error.LinkFailed?
    ensures r.answer.Err? && r.answer.error.LinkFailed? ==> exists k :: 0 <= k < maxRetries && reconnect(k) == Some(r.answer.error.error)
  {
    var m := Merged(st, args);
    var params := Merge(st.container, args);
    var sql := BoundSql(st.sql, params, conv);
    var o := RetryFrom(sql, answer, reconnect, maxRetries, 0);
    RetryShape(sql, answer, reconnect, maxRetries, 0);
    var n := StopAt(answer, reconnect, maxRetries, 0);
    assert o.result.Err? && o.result.error.LinkFailed? ==> n < maxRetries && reconnect(n) == Some(o.result.error.error);
    match o.result
    case Err(e) => Executed(m, Err(e), o.effects)
    case Ok(v) =>
      if v == Bool(false) then Executed(m, Err(Runtime(lastError, None)), o.effects)
      else if st.bufferResults then Executed(m.(prepared := false), Ok(Returned(v, true)), o.effects)
      else Executed(m, Ok(Returned(v, false)), o.effects)
  }

  /**
   * `execute($parameters)` as written: the buffered path calls
   * `store_result()` on the statement's `resource`, which nothing in this
   * class ever sets, so it throws PHP's `\Error` for a call on null, after
   * the query has run and before `prepared` is reset.
   */
  function Execute(st: Stmt, args: Arguments, conv: Conversions, answer: nat -> Answer, reconnect: ReconnectOutcomes,
                   maxRetries: int, lastError: string): (r: Executed)
    ensures r.stmt == Merged(st, args)
    ensures var intended := ExecuteIntended(st, args, conv, answer, reconnect, maxRetries, lastError);
      && r.effects == intended.effects
      && (!st.bufferResults ==> r == intended)
      && (st.bufferResults && intended.answer.Ok? ==> r.answer == Err(StoreResultOnNull))
      && (intended.answer.Err? ==> r.answer == intended.answer)
    ensures r.answer.Ok? ==> !st.bufferResults && !r.answer.value.buffered
  {
    var intended := ExecuteIntended(st, args, conv, answer, reconnect, maxRetries, lastError);
    if st.bufferResults && intended.answer.Ok? then Executed(Merged(st, args), Err(StoreResultOnNull), intended.effects)
    else intended
  }

  /**
   * A buffered statement never executes successfully as written: a
   * successful query ends in the `\Error` of `store_result()` on null, where
   * the intended statement answers the result, buffered, and can be
   * prepared again.
   */
  lemma BufferedAlwaysFails(st: Stmt, args: Arguments, conv: Conversions, answer: nat -> Answer, reconnect: ReconnectOutcomes,
                            maxRetries: int, lastError: string)
    requires st.bufferResults
    ensures Execute(st, args, conv, answer, reconnect, maxRetries, lastError).answer.Err?
    ensures answer(0) == Rows(Int(1)) ==>
      && Execute(st, args, conv, answer, reconnect, maxRetries, lastError).answer == Err(StoreResultOnNull)
      && ExecuteIntended(st, args, conv, answer, reconnect, maxRetries, lastError).answer == Ok(Returned(Int(1), true))
      && !ExecuteIntended(st, args, conv, answer, reconnect, maxRetries, lastError).stmt.prepared
  {
    var sql := BoundSql(st.sql, Merge(st.container, args), conv);
    if answer(0) == Rows(Int(1)) {
      assert RetryFrom(sql, answer, reconnect, maxRetries, 0).result == Ok(Int(1));
    }
  }

  /**
   * A failed execution keeps what it did before the query: the statement
   * stays prepared, so `prepare()` is refused, and a later `execute()`
   * without arguments binds the parameters merged this time.
   */
  lemma FailureKeepsState(st: Stmt, args: Arguments, conv: Conversions, answer: nat -> Answer, reconnect: ReconnectOutcomes,
                          maxRetries: int, lastError: string)
    ensures var r := Execute(st, args, conv, answer, reconnect, maxRetries, lastError);
      && Prepare(r.stmt) == Err(AlreadyPrepared)
      && Merge(r.stmt.container, NoArguments) == Merge(st.container, args)
  {
  }

  /** Every query in the trace sends `sql`. */
  predicate SendsOnly(e: seq<Effect>, sql: string) {
    forall k :: 0 <= k < |e| && e[k].Query? ==> e[k].sql == sql
  }

  /** Every query the retry loop sends is the same SQL. */
  lemma {:induction false} RetrySendsOneSql(sql: string, answer: nat -> Answer, reconnect: ReconnectOutcomes, maxRetries: int, tries: nat)
    ensures SendsOnly(RetryFrom(sql, answer, reconnect, maxRetries, tries).effects, sql)
    decreases if tries < maxRetries then maxRetries - tries else 0
  {
    var a := answer(tries);
    var step := AttemptEffects(sql, a, tries, maxRetries);
    assert SendsOnly(step, sql);
    if Continues(a, tries, maxRetries, reconnect) {
      RetrySendsOneSql(sql, answer, reconnect, maxRetries, tries + 1);
      var rest := RetryFrom(sql, answer, reconnect, maxRetries, tries + 1).effects;
      var e := RetryFrom(sql, answer, reconnect, maxRetries, tries).effects;
      assert e == step + rest;
      forall k | 0 <= k < |e| && e[k].Query? ensures e[k].sql == sql {
        if k >= |step| {
          assert e[k] == rest[k - |step|];
        } else {
          assert e[k] == step[k];
        }
      }
    }
  }

  /** An execution's effects, whatever its outcome, are the retry loop's on the bound SQL. */
  lemma ExecuteSends(st: Stmt, args: Arguments, conv: Conversions, answer: nat -> Answer, reconnect: ReconnectOutcomes,
                     maxRetries: int, lastError: string)
    ensures Execute(st, args, conv, answer, reconnect, maxRetries, lastError).effects
      == RetryFrom(BoundSql(st.sql, Merge(st.container, args), conv), answer, reconnect, maxRetries, 0).effects
  {
  }

  /** Without parameters anywhere, the statement's SQL is sent verbatim. */
  lemma ExecuteVerbatim(st: Stmt, conv: Conversions, answer: nat -> Answer, reconnect: ReconnectOutcomes, maxRetries: int, lastError: string)
    requires st.container.None? || st.container == Some([])
    ensures var e := Execute(st, NoArguments, conv, answer, reconnect, maxRetries, lastError).effects;
      |e| > 0 && SendsOnly(e, st.sql)
  {
    ExecuteSends(st, NoArguments, conv, answer, reconnect, maxRetries, lastError);
    RetrySendsOneSql(st.sql, answer, reconnect, maxRetries, 0);
    RetryShape(st.sql, answer, reconnect, maxRetries, 0);
  }

  /** A query that answers `false` is reported with the connection's last error. */
  lemma FalseIsAnError(st: Stmt, args: Arguments, conv: Conversions, answer: nat -> Answer, reconnect: ReconnectOutcomes, lastError: string)
    requires answer(0) == Rows(Bool(false))
    ensures Execute(st, args, conv, answer, reconnect, 0, lastError).answer == Err(Runtime(lastError, None))
  {
  }

  /** A lost connection that cannot be restored fails the execution with the link's exception. */
  lemma ExecuteReconnectRefused(st: Stmt, args: Arguments, conv: Conversions, answer: nat -> Answer,
                                link: ParentConnection.Link, reports: nat -> ParentConnection.Report,
                                maxRetries: int, lastError: string, msg: string)
    requires 0 < maxRetries && link.hasResource
    requires answer(0) == Failed(SqlFailure(2013, msg)) && reports(0).report != ParentConnection.Connected
    ensures Execute(st, args, conv, answer, LinkReconnects(link, reports), maxRetries, lastError).answer
      == Err(LinkFailed(ParentConnection.ConnectionError("Connection error", reports(0).errno, reports(0).error, reports(0).errno)))
  {
    var sql := BoundSql(st.sql, Merge(st.container, args), conv);
    RetryReconnects(sql, answer, LinkReconnects(link, reports), maxRetries, msg);
  }

  /** With positional parameters only, the SQL sent fills the `?` marks in order. */
  lemma ExecutePositional(st: Stmt, params: seq<Param>, conv: Conversions, answer: nat -> Answer, reconnect: ReconnectOutcomes,
                          maxRetries: int, lastError: string)
    requires st.container.None? && |params| > 0
    requires forall i :: 0 <= i < |params| ==> params[i].name.IntKey?
    ensures var e := Execute(st, ContainerArg(params), conv, answer, reconnect, maxRetries, lastError).effects;
      SendsOnly(e, FillSlots(st.sql, Classify(params, conv).1))
  {
    var sql := BindSqlAsWritten(st.sql, params, conv);
    assert Merge(st.container, ContainerArg(params)) == params;
    assert BoundSql(st.sql, params, conv) == sql;
    ExecuteSends(st, ContainerArg(params), conv, answer, reconnect, maxRetries, lastError);
    PositionalFill(st.sql, params, conv);
    RetrySendsOneSql(sql, answer, reconnect, maxRetries, 0);
  }

  /** `initialize()` and `setResource()`: this statement cannot adopt a native one. */
  function NotSupported(methodName: string): (r: Result<Stmt, StatementError>)
    ensures r.Err? && r.error.Runtime? && r.error.previous.None?
    ensures r.error.message == "Wtsergo\\LaminasDbDriverAsync\\AsyncMysqli\\Statement::" + methodName + " not supported"
  {
    Err(Runtime("Wtsergo\\LaminasDbDriverAsync\\AsyncMysqli\\Statement::" + methodName + " not supported", None))
  }
}
