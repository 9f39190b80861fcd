/**
 * The client-side proxies of a worker's PDO and statements. Each proxy
 * allows one outstanding request: a call while another is in flight is
 * refused without sending anything; otherwise the call becomes a
 * `pdo:<method>` or `statement:<method>` task aimed at the proxy's id. A
 * failure to send, and a PDOException of the worker's native call, come
 * back as stream errors; an `\Error` the task throws passes through. The
 * worker's answer is an input.
 */
module WorkerProxy {
  import opened Wrappers
  import opened Php
  import opened PdoTask

  // ---------------------------------------------------------------------------
  // One request at a time
  // ---------------------------------------------------------------------------

  /** How the worker's `execute` ended. */
  datatype WorkerOutcome =
    | Returned(value: Value)
    | TaskFailed(reason: TaskError)     // the task threw inside the worker
    | WorkerFailed(message: string)     // the task could not be sent
    | OtherFailure(message: string)     // anything else, passed through

  datatype ProxyError =
    | PendingOperation
    | StreamFailure(message: string, previous: WorkerOutcome)
    | Passed(message: string)
    | TaskThrew(reason: TaskError)      // the task's `\Error`, which `runTask` does not catch
    | ReturnTypeError

  const ReadFailedMessage := "Reading from the worker failed"
  const SendFailedMessage := "Sending the task to the worker failed"

  /** The first half of `runTask`: refuse while busy, else become busy and send. */
  function Dispatch(busy: bool, task: Task): (r: Result<(bool, Task), ProxyError>)
    ensures busy <==> r.Err?
    ensures r.Err? ==> r.error == PendingOperation
    ensures r.Ok? ==> r.value.0 && r.value.1 == task
  {
    if busy then Err(PendingOperation) else Ok((true, task))
  }

  /**
   * The second half: whatever the outcome, the proxy is no longer busy. The
   * worker rethrows a task's `\Exception` as a `TaskFailureException`, which
   * becomes the read error, and its `\Error` as a `TaskFailureError`, which
   * no `catch` clause of `runTask` names.
   */
  function Complete(outcome: WorkerOutcome): (r: (bool, Result<Value, ProxyError>))
    ensures !r.0
    ensures r.1.Ok? <==> outcome.Returned?
    ensures outcome.Returned? ==> r.1.value == outcome.value
    ensures outcome.TaskFailed? ==>
      (r.1 == Err(StreamFailure(ReadFailedMessage, outcome)) <==> ClassOf(outcome.reason) == ExceptionClass)
    ensures outcome.TaskFailed? && ClassOf(outcome.reason) == ErrorClass ==> r.1 == Err(TaskThrew(outcome.reason))
    ensures outcome.WorkerFailed? ==> r.1 == Err(StreamFailure(SendFailedMessage, outcome))
    ensures outcome.OtherFailure? ==> r.1 == Err(Passed(outcome.message))
  {
    match outcome
    case Returned(v) => (false, Ok(v))
    case TaskFailed(e) =>
      if ClassOf(e) == ExceptionClass then (false, Err(StreamFailure(ReadFailedMessage, outcome)))
      else (false, Err(TaskThrew(e)))
    case WorkerFailed(_) => (false, Err(StreamFailure(SendFailedMessage, outcome)))
    case OtherFailure(m) => (false, Err(Passed(m)))
  }

  /** What one `runTask` call did: the busy flag after it, its answer, and the tasks it sent. */
  datatype Exchange = Exchange(busy: bool, answer: Result<Value, ProxyError>, sent: seq<Task>)

  /** `runTask($task)`, with the worker's outcome as input. */
  function RunTask(busy: bool, task: Task, outcome: WorkerOutcome): (r: Exchange)
    ensures busy ==> r == Exchange(true, Err(PendingOperation), [])
    ensures !busy ==> !r.busy && r.sent == [task] && r.answer == Complete(outcome).1
  {
    match Dispatch(busy, task)
    case Err(e) => Exchange(busy, Err(e), [])
    case Ok((_, sent)) =>
      var (b, answer) := Complete(outcome);
      Exchange(b, answer, [sent])
  }

  /**
   * While a request is in flight, any further call on the same proxy is
   * refused and sends nothing; once it completes, the next call goes out.
   */
  lemma OneRequestInFlight(task: Task, other: Task, outcome: WorkerOutcome, later: WorkerOutcome)
    ensures var d := Dispatch(false, task);
      && d.Ok?
      && RunTask(d.value.0, other, later) == Exchange(true, Err(PendingOperation), [])
      && RunTask(Complete(outcome).0, other, later).sent == [other]
  {
  }

  /** The worker side of `execute`: the task runs on the registry; a thrown error is a task failure. */
  function Execute(reg: Registry, task: Task, native: Native): (r: (Registry, WorkerOutcome))
    ensures Run(reg, task, native).Ok? ==> r == (Run(reg, task, native).value.0, Returned(Run(reg, task, native).value.1))
    ensures Run(reg, task, native).Err? ==> r == (reg, TaskFailed(Run(reg, task, native).error))
  {
    match Run(reg, task, native)
    case Ok((reg', v)) => (reg', Returned(v))
    case Err(e) => (reg, TaskFailed(e))
  }

  // ---------------------------------------------------------------------------
  // The PDO proxy
  // ---------------------------------------------------------------------------

  /** A `WorkerPdo`: its registry id (`N:pdo`), its worker, and the busy flag. */
  datatype PdoProxy = PdoProxy(id: string, worker: nat, busy: bool)

  /** A `WorkerStatement`: its id (`S:N:stmt`), its PDO's id and worker, and its own busy flag. */
  datatype StatementProxy = StatementProxy(id: string, owner: string, worker: nat, busy: bool)

  /** The calls of `WorkerPdo`, with their arguments. */
  datatype PdoCall =
    | Prepare(query: string, options: Value)
    | BeginTransaction
    | Commit
    | RollBack
    | InTransaction
    | SetAttribute(attribute: int, value: Value)
    | Exec(statement: string)
    | Query(query: string, fetchMode: Value, fetchModeArgs: seq<Value>)
    | LastInsertId(name: Value)
    | ErrorCode
    | ErrorInfo
    | GetAttribute(attribute: int)
    | Quote(text: string, kind: int)

  function PdoMethodName(c: PdoCall): string {
    match c
    case Prepare(_, _) => "prepare"
    case BeginTransaction => "beginTransaction"
    case Commit => "commit"
    case RollBack => "rollBack"
    case InTransaction => "inTransaction"
    case SetAttribute(_, _) => "setAttribute"
    case Exec(_) => "exec"
    case Query(_, _, _) => "query"
    case LastInsertId(_) => "lastInsertId"
    case ErrorCode => "errorCode"
    case ErrorInfo => "errorInfo"
    case GetAttribute(_) => "getAttribute"
    case Quote(_, _) => "quote"
  }

  function PdoArgs(c: PdoCall): seq<Value> {
    match c
    case Prepare(q, o) => [Str(q), o]
    case SetAttribute(a, v) => [Int(a), v]
    case Exec(s) => [Str(s)]
    case Query(q, m, rest) => [Str(q), m] + rest
    case LastInsertId(n) => [n]
    case GetAttribute(a) => [Int(a)]
    case Quote(s, k) => [Str(s), Int(k)]
    case _ => []
  }

  /** The task a call sends: `pdo:<method>`, the call's arguments, the proxy's id. */
  function PdoTaskFor(p: PdoProxy, c: PdoCall): (t: Task)
    ensures NewTask(t.operation, t.args, t.id) == Ok(t)
  {
    Task("pdo:" + PdoMethodName(c), PdoArgs(c), Some(p.id))
  }

  /** The task sent on release: `pdo:destroy` for the proxy's id. */
  function PdoDestroyTask(p: PdoProxy): Task {
    Task("pdo:destroy", [], Some(p.id))
  }

  /** What a call answers: a plain value, or a statement proxy for `prepare`/`query`. */
  datatype Reply = Plain(value: Value) | NewStatement(statement: StatementProxy)

  /** The worker's answer turned into the method's return value. */
  function PdoReply(p: PdoProxy, c: PdoCall, v: Value): (r: Result<Reply, ProxyError>)
    ensures (c.Prepare? || c.Query?) && v.Str? ==>
      r == Ok(NewStatement(StatementProxy(v.s, p.id, p.worker, false)))
    ensures !(c.Prepare? || c.Query?) ==> r == Ok(Plain(v))
  {
    if c.Prepare? || c.Query? then
      if v.Str? then Ok(NewStatement(StatementProxy(v.s, p.id, p.worker, false)))
      else Err(ReturnTypeError)
    else Ok(Plain(v))
  }

  /**
   * `setAttribute()` as written: its declared `bool` result is
   * never returned, so a call that reaches the worker and back ends in a
   * return-type error.
   */
  function PdoReplyAsWritten(p: PdoProxy, c: PdoCall, v: Value): (r: Result<Reply, ProxyError>)
    ensures c.SetAttribute? ==> r == Err(ReturnTypeError)
    ensures !c.SetAttribute? ==> r == PdoReply(p, c, v)
  {
    if c.SetAttribute? then Err(ReturnTypeError) else PdoReply(p, c, v)
  }

  /** One call on the PDO proxy. */
  function CallPdo(p: PdoProxy, c: PdoCall, outcome: WorkerOutcome): (r: (PdoProxy, Result<Reply, ProxyError>, seq<Task>))
    ensures r.0.id == p.id && r.0.worker == p.worker
    ensures p.busy ==> r == (p, Err(PendingOperation), [])
    ensures !p.busy ==> !r.0.busy && r.2 == [PdoTaskFor(p, c)]
    ensures !p.busy && outcome.Returned? ==> r.1 == PdoReply(p, c, outcome.value)
    ensures !p.busy && !outcome.Returned? ==> r.1.Err? && r.1.error == Complete(outcome).1.error
  {
    var ex := RunTask(p.busy, PdoTaskFor(p, c), outcome);
    var answer := if ex.answer.Ok? then PdoReply(p, c, ex.answer.value) else Err(ex.answer.error);
    (p.(busy := ex.busy), answer, ex.sent)
  }

  /** The same call with `setAttribute` as written. */
  function CallPdoAsWritten(p: PdoProxy, c: PdoCall, outcome: WorkerOutcome): (r: (PdoProxy, Result<Reply, ProxyError>, seq<Task>))
    ensures !c.SetAttribute? ==> r == CallPdo(p, c, outcome)
    ensures c.SetAttribute? && !p.busy && outcome.Returned? ==> r.1 == Err(ReturnTypeError)
  {
    var ex := RunTask(p.busy, PdoTaskFor(p, c), outcome);
    var answer := if ex.answer.Ok? then PdoReplyAsWritten(p, c, ex.answer.value) else Err(ex.answer.error);
    (p.(busy := ex.busy), answer, ex.sent)
  }

  /**
   * A `setAttribute` the worker carried out still fails on the client as
   * written, though the attribute is set; the corrected method answers
   * the worker's result.
   */
  lemma SetAttributeResultLost(p: PdoProxy, attribute: int, value: Value, answer: Value)
    requires !p.busy
    ensures CallPdoAsWritten(p, SetAttribute(attribute, value), Returned(answer)).1 == Err(ReturnTypeError)
    ensures CallPdo(p, SetAttribute(attribute, value), Returned(answer)).1 == Ok(Plain(answer))
  {
  }

  // ---------------------------------------------------------------------------
  // The statement proxy
  // ---------------------------------------------------------------------------

  /** The calls of `WorkerStatement`, with their arguments. */
  datatype StatementCall =
    | StmtExecute(input: Value)
    | Fetch(mode: Value, orientation: Value, offset: Value)
    | BindParam(param: Value, variable: Value, kind: Value, maxLength: Value, options: Value)
    | BindParams(params: seq<Value>)
    | BindColumn(column: Value, variable: Value, kind: Value, maxLength: Value, options: Value)
    | BindValue(param: Value, value: Value, kind: Value)
    | RowCount
    | FetchColumn(column: Value)
    | FetchAll(mode: Value, rest: seq<Value>)
    | FetchObject(className: Value, ctorArgs: Value)
    | StmtErrorCode
    | StmtErrorInfo
    | StmtSetAttribute(attribute: Value, value: Value)
    | StmtGetAttribute(name: Value)
    | ColumnCount
    | GetColumnMeta(column: Value)
    | SetFetchMode(params: seq<Value>)
    | NextRowset
    | CloseCursor

  function StatementMethodName(c: StatementCall): string {
    match c
    case StmtExecute(_) => "execute"
    case Fetch(_, _, _) => "fetch"
    case BindParam(_, _, _, _, _) => "bindParam"
    case BindParams(_) => "bindParams"
    case BindColumn(_, _, _, _, _) => "bindColumn"
    case BindValue(_, _, _) => "bindValue"
    case RowCount => "rowCount"
    case FetchColumn(_) => "fetchColumn"
    case FetchAll(_, _) => "fetchAll"
    case FetchObject(_, _) => "fetchObject"
    case StmtErrorCode => "errorCode"
    case StmtErrorInfo => "errorInfo"
    case StmtSetAttribute(_, _) => "setAttribute"
    case StmtGetAttribute(_) => "getAttribute"
    case ColumnCount => "columnCount"
    case GetColumnMeta(_) => "getColumnMeta"
    case SetFetchMode(_) => "setFetchMode"
    case NextRowset => "nextRowset"
    case CloseCursor => "closeCursor"
  }

  function StatementArgs(c: StatementCall): seq<Value> {
    match c
    case StmtExecute(p) => [p]
    case Fetch(m, o, off) => [m, o, off]
    case BindParam(a, b, k, l, o) => [a, b, k, l, o]
    case BindParams(ps) => ps
    case BindColumn(a, b, k, l, o) => [a, b, k, l, o]
    case BindValue(a, v, k) => [a, v, k]
    case FetchColumn(col) => [col]
    case FetchAll(m, rest) => [m] + rest
    case FetchObject(cl, args) => [cl, args]
    case StmtSetAttribute(a, v) => [a, v]
    case StmtGetAttribute(n) => [n]
    case GetColumnMeta(col) => [col]
    case SetFetchMode(ps) => ps
    case _ => []
  }

  /** The task a statement call sends: `statement:<method>` with the statement's id. */
  function StatementTaskFor(s: StatementProxy, c: StatementCall): (t: Task)
    ensures NewTask(t.operation, t.args, t.id) == Ok(t)
    ensures c.BindParams? ==> t.args == c.params
  {
    Task("statement:" + StatementMethodName(c), StatementArgs(c), Some(s.id))
  }

  /** One call on the statement proxy. */
  function CallStatement(s: StatementProxy, c: StatementCall, outcome: WorkerOutcome): (r: (StatementProxy, Result<Value, ProxyError>, seq<Task>))
    ensures r.0.id == s.id && r.0.owner == s.owner && r.0.worker == s.worker
    ensures s.busy ==> r == (s, Err(PendingOperation), [])
    ensures !s.busy ==> !r.0.busy && r.2 == [StatementTaskFor(s, c)] && r.1 == Complete(outcome).1
  {
    var ex := RunTask(s.busy, StatementTaskFor(s, c), outcome);
    (s.(busy := ex.busy), ex.answer, ex.sent)
  }

  /** Release queues `statement:destroy` for the statement's id on its PDO's worker. */
  function StatementDestroy(s: StatementProxy): (r: (nat, Task))
    ensures r.0 == s.worker
  {
    (s.worker, Task("statement:destroy", [], Some(s.id)))
  }

  /** A statement the PDO proxy hands out is released through that PDO's worker. */
  lemma StatementReleasedOnOwnersWorker(p: PdoProxy, c: PdoCall, id: string)
    requires !p.busy && (c.Prepare? || c.Query?)
    ensures var r := CallPdo(p, c, Returned(Str(id)));
      && r.1.Ok? && r.1.value.NewStatement?
      && r.1.value.statement.id == id && r.1.value.statement.owner == p.id
      && StatementDestroy(r.1.value.statement).0 == p.worker
  {
  }

  // ---------------------------------------------------------------------------
  // What the worker makes of the proxies' tasks
  // ---------------------------------------------------------------------------

  /** Every PDO call except `quote` names a method the worker carries out. */
  lemma PdoMethodsKnown(c: PdoCall)
    ensures var m := PdoMethodName(c);
      !c.Quote? <==> PdoNativeMethod(m) || m == "prepare" || m == "query"
  {
  }

  /** Every statement call names a method the worker carries out. */
  lemma StatementMethodsKnown(c: StatementCall)
    ensures var m := StatementMethodName(c);
      StatementNativeMethod(m) || m == "bindParams"
  {
  }

  /** A PDO proxy's task reaches `executePdoMethod` with the call's method. */
  lemma PdoTaskRouted(reg: Registry, p: PdoProxy, c: PdoCall, native: Native)
    ensures Run(reg, PdoTaskFor(p, c), native) == RunPdo(reg, PdoTaskFor(p, c), PdoMethodName(c), native)
  {
    PdoRoute(reg, PdoTaskFor(p, c), PdoMethodName(c), native);
  }

  /** The worker refuses the `pdo:quote` task of a proxy on a PDO it knows. */
  lemma QuoteRefusedByWorker(reg: Registry, p: PdoProxy, text: string, kind: int, native: Native)
    requires FindPdo(reg, PdoTaskFor(p, Quote(text, kind))).Ok?
    ensures var t := PdoTaskFor(p, Quote(text, kind));
      Run(reg, t, native) == Err(InvalidOperation(t.operation))
  {
    var t := Task("pdo:" + "quote", PdoArgs(Quote(text, kind)), Some(p.id));
    assert PdoTaskFor(p, Quote(text, kind)) == t;
    PdoRoute(reg, t, "quote", native);
    QuoteRefused(reg, t, native);
  }

  /**
   * `quote` is sent as `pdo:quote`, which the worker refuses with an
   * `\Error`, so on a PDO the worker knows the call always throws that
   * error at the caller.
   */
  lemma QuoteAlwaysFails(reg: Registry, p: PdoProxy, text: string, kind: int, native: Native)
    requires !p.busy && FindPdo(reg, PdoTaskFor(p, Quote(text, kind))).Ok?
    ensures var t := PdoTaskFor(p, Quote(text, kind));
      && Execute(reg, t, native).1 == TaskFailed(InvalidOperation(t.operation))
      && CallPdo(p, Quote(text, kind), Execute(reg, t, native).1).1 == Err(TaskThrew(InvalidOperation(t.operation)))
  {
    QuoteRefusedByWorker(reg, p, text, kind, native);
    TaskFailureSurfaces(p, Quote(text, kind), InvalidOperation(PdoTaskFor(p, Quote(text, kind)).operation));
  }

  /**
   * Only a PDOException of the worker's native call reaches the caller as
   * the read error; every other failure of the task is thrown at the caller
   * as it is.
   */
  lemma TaskFailureSurfaces(p: PdoProxy, c: PdoCall, e: TaskError)
    requires !p.busy
    ensures e.NativeFailed? ==> CallPdo(p, c, TaskFailed(e)).1 == Err(StreamFailure(ReadFailedMessage, TaskFailed(e)))
    ensures e.PoolFailed? && e.thrown == ExceptionClass ==>
      CallPdo(p, c, TaskFailed(e)).1 == Err(StreamFailure(ReadFailedMessage, TaskFailed(e)))
    ensures !e.NativeFailed? && !(e.PoolFailed? && e.thrown == ExceptionClass) ==> CallPdo(p, c, TaskFailed(e)).1 == Err(TaskThrew(e))
  {
  }

  /** The worker's `executePdoMethod` has no `quote` case. */
  lemma QuoteRefused(reg: Registry, t: Task, native: Native)
    requires FindPdo(reg, t).Ok?
    ensures RunPdo(reg, t, "quote", native) == Err(InvalidOperation(t.operation))
  {
    assert !PdoNativeMethod("quote");
  }

  /** A statement's release task, run by the worker, drops it from the registry. */
  lemma StatementDestroyForgets(reg: Registry, s: StatementProxy, native: Native)
    requires StatementIdOk(Some(s.id)) && s.id in reg
    ensures Execute(reg, StatementDestroy(s).1, native) == (reg - {s.id}, Returned(Bool(true)))
  {
    StatementRoute(reg, StatementDestroy(s).1, "destroy", native);
  }

  /** A PDO's release task, run by the worker, drops both of its entries. */
  lemma PdoDestroyForgets(reg: Registry, n: nat, native: Native)
    requires Coherent(reg) && n >= 1 && PdoKey(n) in reg && reg[PdoKey(n)].PdoObj?
    ensures var (reg', outcome) := Execute(reg, PdoDestroyTask(PdoProxy(PdoKey(n), 0, false)), native);
      && outcome == Returned(Bool(true))
      && PdoKey(n) !in reg' && DriverNameKey(n) !in reg'
  {
    var t := PdoDestroyTask(PdoProxy(PdoKey(n), 0, false));
    FindPdoOwnNumber(reg, n, t.operation, native);
    DestroyDrops(reg, t, n, native);
  }
}
