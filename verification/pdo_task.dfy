/**
 * The task a PDO worker runs: which operation is asked for, which PDO or
 * statement it targets, and the worker-wide registry (a string-keyed cache)
 * that keeps PDO connections, their driver names and their statements
 * between tasks. The native PDO calls are answers supplied from outside.
 */
module PdoTask {
  import opened Wrappers
  import opened Php
  import ResourcePool
  import PdoPool

  /** `new PdoTask($operation, $args, $id)`. */
  datatype Task = Task(operation: string, args: seq<Value>, id: Option<string>)

  const EmptyOperationMessage := "Operation must be a non-empty string"

  /** The constructor refuses an empty operation name. */
  function NewTask(operation: string, args: seq<Value>, id: Option<string>): (r: Result<Task, string>)
    ensures r.Ok? <==> operation != ""
    ensures r.Ok? ==> r.value.operation == operation && r.value.args == args && r.value.id == id
    ensures r.Err? ==> r.error == EmptyOperationMessage
  {
    if operation == "" then Err(EmptyOperationMessage) else Ok(Task(operation, args, id))
  }

  // ---------------------------------------------------------------------------
  // Registry
  // ---------------------------------------------------------------------------

  /** What the cache holds: a pooled PDO (by object number), a driver name, a statement. */
  datatype Obj = PdoObj(handle: nat) | DriverNameObj(name: string) | StmtObj(handle: nat)

  type Registry = map<string, Obj>

  /** `N:pdo` (`N` is the coerced id, which may be any integer). */
  function PdoKey(n: int): string { IntToString(n) + ":pdo" }

  /** `N:driverName`. */
  function DriverNameKey(n: nat): string { IntToString(n) + ":driverName" }

  /** `S:N:stmt`: statement number `s` of the PDO numbered `n`. */
  function StmtKey(s: nat, n: nat): string { IntToString(s) + ":" + IntToString(n) + ":stmt" }

  /** A PDO object is filed under its own number. */
  ghost predicate Coherent(reg: Registry) {
    forall k :: k in reg && reg[k].PdoObj? ==> k == PdoKey(reg[k].handle)
  }

  // ---------------------------------------------------------------------------
  // Ids
  // ---------------------------------------------------------------------------

  /**
   * The `int` parameter of `pdoCacheId()` receiving a string, under PHP's
   * coercive typing: a string that starts, after white space, with a number
   * is accepted as that number truncated toward zero (what follows the
   * number only raises a warning); a string without one is a type error.
   */
  function CoerceInt(t: string): (r: Option<int>)
    ensures r.Some? <==> HasNumericPrefix(t)
    ensures r.Some? ==> r.value == IntVal(Str(t))
    ensures |t| > 0 && Digits(t) ==> r == Some(DigitsValue(t))
  {
    DigitStringValue(t);
    if |t| > 0 && Digits(t) then Some(DigitsValue(t))
    else if HasNumericPrefix(t) then Some(ParseInt(t))
    else None
  }

  /** A string with a numeric prefix coerces to what `intval` reads. */
  lemma CoerceNumeric(t: string)
    requires HasNumericPrefix(t)
    ensures CoerceInt(t) == Some(ParseInt(t))
  {
  }

  /** White space around the number and a minus sign are accepted. */
  lemma CoerceIntLenient(d: string)
    requires |d| > 0 && Digits(d)
    ensures CoerceInt(" " + d).Some? && CoerceInt(" " + d).value == DigitsValue(d)
    ensures CoerceInt(d + " ").Some? && CoerceInt(d + " ").value == DigitsValue(d)
    ensures CoerceInt("-" + d).Some? && CoerceInt("-" + d).value == -(DigitsValue(d) as int)
  {
    NumericPrefixLenient(d);
    assert d + "" == d;
    ParseIntDigits(d, "");
    ParseIntDigits(d, " ");
    CoerceNumeric(" " + d);
    CoerceNumeric(d + " ");
    CoerceNumeric("-" + d);
  }

  /** `[$pdoId] = explode(':', (string)$id, 2)`: the part before the first `:`. */
  function PdoIdOf(id: Option<string>): string {
    SplitN(id.GetOr(""), ':', 2)[0]
  }

  /** `count(explode(':', $id)) >= 3`. */
  predicate StatementIdOk(id: Option<string>) {
    |Split(id.GetOr(""), ':')| >= 3
  }

  lemma DigitsOfNat(n: nat)
    ensures CoerceInt(IntToString(n)) == Some(n)
  {
    DigitsValueOfNat(n);
  }

  /** A PDO key reads back as its number: `N:pdo` gives `N`, which coerces to `N`. */
  lemma PdoKeyRoundTrip(n: nat)
    ensures PdoIdOf(Some(PdoKey(n))) == IntToString(n)
    ensures CoerceInt(PdoIdOf(Some(PdoKey(n)))) == Some(n)
  {
    IntToStringHasNo(n, ':');
    CutAtFirst(IntToString(n), "pdo", ':');
    assert PdoKey(n) == IntToString(n) + [':'] + "pdo";
    DigitsOfNat(n);
  }

  /** The pieces of a statement key. */
  lemma StmtKeyPieces(s: nat, n: nat)
    ensures Split(StmtKey(s, n), ':') == [IntToString(s), IntToString(n), "stmt"]
  {
    var parts := [IntToString(s), IntToString(n), "stmt"];
    IntToStringHasNo(s, ':');
    IntToStringHasNo(n, ':');
    assert Join(parts, [':']) == StmtKey(s, n) by {
      assert Join(parts[2..], [':']) == "stmt";
      assert Join(parts[1..], [':']) == IntToString(n) + ":" + "stmt";
    }
    SplitJoin(parts, ':');
  }

  /**
   * A statement key is a well-formed statement id whose second part is its
   * PDO's number, and that PDO's registry key is `N:pdo`.
   */
  lemma StmtKeyRoundTrip(s: nat, n: nat)
    ensures StatementIdOk(Some(StmtKey(s, n)))
    ensures SplitN(StmtKey(s, n), ':', 3)[1] == IntToString(n)
    ensures CoerceInt(SplitN(StmtKey(s, n), ':', 3)[1]) == Some(n)
    ensures SplitN(StmtKey(s, n), ':', 3)[0] == IntToString(s)
  {
    var key := StmtKey(s, n);
    assert StatementIdOk(Some(key)) && SplitN(key, ':', 3)[0] == IntToString(s) && SplitN(key, ':', 3)[1] == IntToString(n) by {
      StmtKeyPieces(s, n);
    }
    DigitsOfNat(n);
  }

  /** Different numbers give different keys. */
  lemma PdoKeyInjective(a: nat, b: nat)
    requires PdoKey(a) == PdoKey(b)
    ensures a == b
  {
    PdoKeyRoundTrip(a);
    PdoKeyRoundTrip(b);
  }

  // ---------------------------------------------------------------------------
  // Running a task
  // ---------------------------------------------------------------------------

  datatype TaskError =
    | BadConnectArity(count: nat)            // 'Invalid number of connection params: N [op]'
    | InvalidOperationName(operation: string) // 'Invalid operation name ...', the intended message
    | FormatArgumentMissing                   // sprintf's ArgumentCountError, which the name check throws
    | InvalidOperation(operation: string)     // 'Invalid operation - op'
    | InvalidStatementId(id: string)          // "Invalid statement id '...' [op]"
    | PdoIdUndefined                          // 'PdoId is undefined [op:id]'
    | PdoIdNotInteger(text: string)           // the TypeError of the `int` parameter
    | PdoNotFound(pdoId: string)              // "PDO resource not found '...' [op:id]"
    | StatementNotFound(stmtId: string)       // 'Statement resource not found - S'
    | NativeFailed(message: string)           // a PDOException of the native call
    | PoolFailed(message: string, thrown: ThrowableClass) // what `getPdo` throws, of its own class

  /**
   * What the task throws: a PDOException of the native call is an
   * `\Exception`; what `getPdo` throws keeps its own class; everything
   * `run()` throws itself (and the TypeError and ArgumentCountError PHP
   * raises for it) is an `\Error`.
   */
  function ClassOf(e: TaskError): (c: ThrowableClass)
    ensures c == ExceptionClass <==> e.NativeFailed? || (e.PoolFailed? && e.thrown == ExceptionClass)
  {
    match e
    case NativeFailed(_) => ExceptionClass
    case PoolFailed(_, thrown) => thrown
    case _ => ErrorClass
  }

  /** An exception `getPdo` throws: its message and its class. */
  datatype Thrown = Thrown(message: string, thrown: ThrowableClass)

  /**
   * What a worker's pooled creation leaves its waiter with: the PDOException
   * of `new \PDO` or of an init statement, or the pool's own `\Error` had a
   * cancellation interrupted it. Nothing in that creation observes the
   * cancellation it captures, so as written only `Threw` arrives; the
   * `Interrupted` case states what the `catch (CancelledException)` would do.
   */
  function CreationThrown(e: ResourcePool.Failure): (r: Thrown)
    ensures e.Interrupted? <==> r.thrown == ErrorClass
    ensures r.message == ResourcePool.FailureMessage(ResourcePool.WorkerPdos, e)
  {
    match e
    case Interrupted => Thrown(ResourcePool.CancelledMessage(ResourcePool.WorkerPdos), ErrorClass)
    case Threw(m) => Thrown(m, ExceptionClass)
  }

  /**
   * What `getPdo` throws at once: the `\Error` of a shut-down pool. (Its
   * arity error cannot happen here, since `connect` checks the arity first.)
   */
  function PullThrown(p: ResourcePool.Pool, params: seq<Value>): (r: Option<Thrown>)
    requires PdoPool.ArityOk(params)
    ensures r.Some? <==> PdoPool.GetPdo(p, params).Err?
    ensures r.Some? ==> r.value == Thrown(PdoPool.GetPdo(p, params).error, ErrorClass)
  {
    match PdoPool.GetPdo(p, params)
    case Err(m) => Some(Thrown(m, ErrorClass))
    case Ok(_) => None
  }

  /**
   * The native side's answers for one task: the number of the pooled PDO a
   * `connect` obtains and its driver attribute, the number of the statement
   * `prepare`/`query` creates, each `bindParam` answer of a `bindParams`, the
   * value any other native call returns, and the exception it raises, if any;
   * for `connect`, also what `getPdo` throws, if anything.
   */
  datatype Native = Native(
    pullFailure: Option<Thrown>,
    pdoHandle: nat,
    driverAttribute: string,
    stmtHandle: nat,
    bindAnswers: seq<bool>,
    result: Value,
    failure: Option<string>)

  predicate StatementNativeMethod(m: string) {
    m in {"fetch", "bindParam", "bindColumn", "bindValue", "rowCount", "fetchColumn",
          "fetchAll", "fetchObject", "errorCode", "errorInfo", "setAttribute", "getAttribute",
          "columnCount", "getColumnMeta", "setFetchMode", "nextRowset", "closeCursor", "execute"}
  }

  predicate PdoNativeMethod(m: string) {
    m in {"beginTransaction", "commit", "rollBack", "inTransaction", "setAttribute", "exec",
          "lastInsertId", "errorCode", "errorInfo", "getAttribute"}
  }

  /** The answer of the `i`-th `bindParam` call. */
  function BindAnswer(native: Native, i: nat): bool {
    if i < |native.bindAnswers| then native.bindAnswers[i] else true
  }

  /**
   * `bindParams`: `$result = $result && bindParam(...)` over the list. The
   * calls stop at the first refusal; the answer is whether all succeeded.
   */
  function BindParams(native: Native, from: nat, n: nat): (r: (nat, bool))
    requires from <= n
    ensures r.1 <==> forall i :: from <= i < n ==> BindAnswer(native, i)
    ensures r.1 ==> r.0 == n - from
    ensures !r.1 ==> r.0 >= 1 && !BindAnswer(native, from + r.0 - 1)
    ensures !r.1 ==> forall i :: from <= i < from + r.0 - 1 ==> BindAnswer(native, i)
    decreases n - from
  {
    if from == n then (0, true)
    else if !BindAnswer(native, from) then (1, false)
    else
      var rest := BindParams(native, from + 1, n);
      (rest.0 + 1, rest.1)
  }

  /** A native call: its exception, or its value. */
  function NativeCall(reg: Registry, native: Native, v: Value): Result<(Registry, Value), TaskError> {
    if native.failure.Some? then Err(NativeFailed(native.failure.value)) else Ok((reg, v))
  }

  /**
   * `connect`: one to four parameters; what `getPdo` throws reaches the
   * caller with its class, a failing `setAttribute` as a PDOException; then
   * the PDO and its lower-cased driver name are filed.
   */
  function RunConnect(reg: Registry, t: Task, native: Native): (r: Result<(Registry, Value), TaskError>)
    ensures !(1 <= |t.args| <= 4) ==> r == Err(BadConnectArity(|t.args|))
    ensures 1 <= |t.args| <= 4 && native.pullFailure.Some? ==>
      r == Err(PoolFailed(native.pullFailure.value.message, native.pullFailure.value.thrown))
    ensures 1 <= |t.args| <= 4 && native.pullFailure.None? && native.failure.Some? ==>
      r == Err(NativeFailed(native.failure.value))
    ensures r.Ok? ==> var n := native.pdoHandle;
      && r.value.0 == reg[PdoKey(n) := PdoObj(n)][DriverNameKey(n) := DriverNameObj(ToLower(native.driverAttribute))]
      && r.value.1 == Arr([Entry(IntKey(0), Str(PdoKey(n))), Entry(IntKey(1), Str(ToLower(native.driverAttribute)))])
  {
    if !(1 <= |t.args| <= 4) then Err(BadConnectArity(|t.args|))
    else if native.pullFailure.Some? then Err(PoolFailed(native.pullFailure.value.message, native.pullFailure.value.thrown))
    else if native.failure.Some? then Err(NativeFailed(native.failure.value))
    else
      var n := native.pdoHandle;
      var name := ToLower(native.driverAttribute);
      Ok((reg[PdoKey(n) := PdoObj(n)][DriverNameKey(n) := DriverNameObj(name)],
          Arr([Entry(IntKey(0), Str(PdoKey(n))), Entry(IntKey(1), Str(name))])))
  }

  /** `executeStatementMethod`: the statement must be filed under the whole id. */
  function RunStatement(reg: Registry, t: Task, action: string, native: Native): (r: Result<(Registry, Value), TaskError>)
    requires StatementIdOk(t.id)
    ensures t.id.GetOr("") !in reg ==> r == Err(StatementNotFound(Split(t.id.GetOr(""), ':')[0]))
    ensures r.Ok? && action == "destroy" ==> r.value.0 == reg - {t.id.GetOr("")}
    ensures r.Ok? && action != "destroy" ==> r.value.0 == reg
  {
    var key := t.id.GetOr("");
    if key !in reg then Err(StatementNotFound(SplitN(key, ':', 3)[0]))
    else if action == "destroy" then Ok((reg - {key}, Bool(true)))
    else if action == "bindParams" then
      if native.failure.Some? then Err(NativeFailed(native.failure.value))
      else Ok((reg, Bool(BindParams(native, 0, |t.args|).1)))
    else if StatementNativeMethod(action) then NativeCall(reg, native, native.result)
    else Err(InvalidOperation(t.operation))
  }

  /** `pdo()`: the PDO filed under the id's first part. */
  function FindPdo(reg: Registry, t: Task): (r: Result<nat, TaskError>)
    ensures var text := PdoIdOf(t.id);
      && (!Truthy(Str(text)) ==> r == Err(PdoIdUndefined))
      && (r.Ok? ==> CoerceInt(text).Some? && PdoKey(CoerceInt(text).value) in reg
                    && reg[PdoKey(CoerceInt(text).value)] == PdoObj(r.value))
  {
    var text := PdoIdOf(t.id);
    if !Truthy(Str(text)) then Err(PdoIdUndefined)
    else
      match CoerceInt(text)
      case None => Err(PdoIdNotInteger(text))
      case Some(n) =>
        var key := PdoKey(n);
        if key in reg && reg[key].PdoObj? then Ok(reg[key].handle) else Err(PdoNotFound(text))
  }

  /** `executePdoMethod`. */
  function RunPdo(reg: Registry, t: Task, action: string, native: Native): (r: Result<(Registry, Value), TaskError>)
    ensures FindPdo(reg, t).Err? ==> r == Err(FindPdo(reg, t).error)
    ensures r.Ok? && (action == "prepare" || action == "query") ==>
      var n := FindPdo(reg, t).value;
      r.value == (reg[StmtKey(native.stmtHandle, n) := StmtObj(native.stmtHandle)], Str(StmtKey(native.stmtHandle, n)))
    ensures r.Ok? && action == "destroy" ==>
      var n := FindPdo(reg, t).value;
      r.value.0 == reg - {DriverNameKey(n)} - {PdoKey(n)}
    ensures r.Ok? && action != "prepare" && action != "query" && action != "destroy" ==> r.value.0 == reg
  {
    var n :- FindPdo(reg, t);
    if action == "prepare" || action == "query" then
      if native.failure.Some? then Err(NativeFailed(native.failure.value))
      else
        var key := StmtKey(native.stmtHandle, n);
        Ok((reg[key := StmtObj(native.stmtHandle)], Str(key)))
    else if action == "destroy" then
      Ok((reg - {DriverNameKey(n)} - {PdoKey(n)}, Bool(true)))
    else if action == "driverName" then
      var key := DriverNameKey(n);
      Ok((reg, if key in reg && reg[key].DriverNameObj? then Str(reg[key].name) else Null))
    else if PdoNativeMethod(action) then NativeCall(reg, native, native.result)
    else Err(InvalidOperation(t.operation))
  }

  /** The part of the operation before its first `:`. */
  function Kind(op: string): string {
    SplitN(op, ':', 2)[0]
  }

  /** The part of the operation after its first `:`, empty when there is none. */
  function Action(op: string): string {
    var parts := SplitN(op, ':', 2);
    if |parts| == 2 then parts[1] else ""
  }

  /** `run()`: `connect`, or `<type>:<method>` split at the first `:`. */
  function Run(reg: Registry, t: Task, native: Native): (r: Result<(Registry, Value), TaskError>)
    ensures t.operation == "connect" ==> r == RunConnect(reg, t, native)
    ensures t.operation != "connect" && ':' !in t.operation ==> r == Err(FormatArgumentMissing)
    ensures t.operation != "connect" && ':' in t.operation ==>
      && (Kind(t.operation) != "statement" && Kind(t.operation) != "pdo" ==> r == Err(InvalidOperation(t.operation)))
      && (Kind(t.operation) == "statement" && !StatementIdOk(t.id) ==> r == Err(InvalidStatementId(t.id.GetOr(""))))
      && (Kind(t.operation) == "statement" && StatementIdOk(t.id) ==> r == RunStatement(reg, t, Action(t.operation), native))
      && (Kind(t.operation) == "pdo" ==> r == RunPdo(reg, t, Action(t.operation), native))
  {
    if t.operation == "connect" then RunConnect(reg, t, native)
    else if AssertOperationNameAsWritten(t.operation) != NameOk then Err(NameError(AssertOperationNameAsWritten(t.operation)))
    else
      var kind := Kind(t.operation);
      if kind == "statement" then
        if !StatementIdOk(t.id) then Err(InvalidStatementId(t.id.GetOr("")))
        else RunStatement(reg, t, Action(t.operation), native)
      else if kind == "pdo" then RunPdo(reg, t, Action(t.operation), native)
      else Err(InvalidOperation(t.operation))
  }

  /** `pdo:<m>` is routed to `executePdoMethod` with method `m`. */
  lemma PdoRoute(reg: Registry, t: Task, m: string, native: Native)
    requires t.operation == "pdo:" + m
    ensures Run(reg, t, native) == RunPdo(reg, t, m, native)
  {
    assert t.operation[0] == 'p' && t.operation[3] == ':';
    assert "pdo" + [':'] + m == t.operation;
    CutAtFirst("pdo", m, ':');
  }

  /** The PDO operations the lemmas below name, spelt as `pdo:` and a method. */
  lemma PdoOperations()
    ensures "pdo:driverName" == "pdo:" + "driverName"
    ensures "pdo:destroy" == "pdo:" + "destroy"
    ensures "pdo:prepare" == "pdo:" + "prepare"
  {
  }

  /** `statement:<m>` with a well-formed id is routed to `executeStatementMethod` with method `m`. */
  lemma StatementRoute(reg: Registry, t: Task, m: string, native: Native)
    requires t.operation == "statement:" + m && StatementIdOk(t.id)
    ensures Run(reg, t, native) == RunStatement(reg, t, m, native)
  {
    assert t.operation[0] == 's' && t.operation[9] == ':';
    assert "statement" + [':'] + m == t.operation;
    CutAtFirst("statement", m, ':');
  }

  /**
   * `assertOperationName()` as written: the operation is
   * concatenated into the format string and no argument is passed, so
   * `sprintf` itself throws (it finds `%s` without a value) and the intended
   * message is never built.
   */
  datatype NameCheck = NameOk | SprintfArgumentCount | NameRejected(operation: string)

  function AssertOperationNameAsWritten(op: string): (r: NameCheck)
    ensures ':' in op <==> r == NameOk
  {
    if ':' in op then NameOk else SprintfArgumentCount
  }

  /** The intended check: the error names the operation. */
  function AssertOperationName(op: string): (r: NameCheck)
    ensures ':' in op <==> r == NameOk
    ensures ':' !in op ==> r == NameRejected(op)
  {
    if ':' in op then NameOk else NameRejected(op)
  }

  /** The error a failed name check throws out of `run()`. */
  function NameError(c: NameCheck): (e: TaskError)
    requires c != NameOk
    ensures c.SprintfArgumentCount? <==> e == FormatArgumentMissing
    ensures c.NameRejected? <==> e.InvalidOperationName?
  {
    match c
    case SprintfArgumentCount => FormatArgumentMissing
    case NameRejected(op) => InvalidOperationName(op)
  }

  /**
   * For an operation without `:`, `run()` throws `sprintf`'s own argument
   * error where the intended check names the operation.
   */
  lemma OperationNameMessageLost(op: string, native: Native)
    requires ':' !in op && op != "connect"
    ensures AssertOperationNameAsWritten(op) == SprintfArgumentCount
    ensures AssertOperationName(op) == NameRejected(op)
    ensures Run(map[], Task(op, [], None), native) == Err(FormatArgumentMissing)
    ensures NameError(AssertOperationName(op)) == InvalidOperationName(op)
  {
  }

  // ---------------------------------------------------------------------------
  // Properties across tasks
  // ---------------------------------------------------------------------------

  /** Every task keeps PDOs filed under their own numbers. */
  lemma RunKeepsCoherent(reg: Registry, t: Task, native: Native)
    requires Coherent(reg)
    ensures Run(reg, t, native).Ok? ==> Coherent(Run(reg, t, native).value.0)
  {
    var r := Run(reg, t, native);
    if r.Ok? {
      var reg' := r.value.0;
      forall k | k in reg' && reg'[k].PdoObj? ensures k == PdoKey(reg'[k].handle) {
        if k !in reg || reg'[k] != reg[k] {
          assert t.operation == "connect";
        }
      }
    }
  }

  /** On a coherent registry, the PDO found for `N:pdo` is number `N`. */
  lemma FindPdoOwnNumber(reg: Registry, n: nat, op: string, native: Native)
    requires Coherent(reg) && n >= 1 && PdoKey(n) in reg && reg[PdoKey(n)].PdoObj?
    ensures FindPdo(reg, Task(op, [], Some(PdoKey(n)))) == Ok(n)
  {
    PdoKeyRoundTrip(n);
    PdoKeyInjective(reg[PdoKey(n)].handle, n);
    assert IntToString(n) != "" && IntToString(n) != "0" by {
      if IntToString(n) == "0" { DigitsOfNat(n); }
    }
  }

  /** `connect` files the PDO and its driver name under the PDO's number. */
  lemma ConnectFiles(reg: Registry, t: Task, native: Native)
    requires t.operation == "connect" && 1 <= |t.args| <= 4 && native.pullFailure.None? && native.failure.None?
    ensures var n := native.pdoHandle;
      var r := Run(reg, t, native);
      && r.Ok?
      && PdoKey(n) in r.value.0 && r.value.0[PdoKey(n)] == PdoObj(n)
      && DriverNameKey(n) in r.value.0 && r.value.0[DriverNameKey(n)] == DriverNameObj(ToLower(native.driverAttribute))
  {
    var n := native.pdoHandle;
    assert PdoKey(n) != DriverNameKey(n) by {
      assert PdoKey(n)[|IntToString(n)| + 1] == 'p';
      assert DriverNameKey(n)[|IntToString(n)| + 1] == 'd';
    }
  }

  /**
   * Once the worker's pool is shut down, `connect` fails with the pool's
   * `\Error`, which stays an `\Error`; a creation interrupted by the
   * shut-down gives an `\Error` too, and a failing `new \PDO` its
   * PDOException.
   */
  lemma ConnectAfterShutdown(reg: Registry, t: Task, native: Native, p: ResourcePool.Pool)
    requires t.operation == "connect" && 1 <= |t.args| <= 4
    requires p.cancelled && p.flavour == ResourcePool.WorkerPdos
    requires native.pullFailure == PullThrown(p, t.args)
    ensures Run(reg, t, native) == Err(PoolFailed("The PdoPool was shut down", ErrorClass))
    ensures ClassOf(Run(reg, t, native).error) == ErrorClass
  {
  }

  /**
   * A failed creation reaches `connect` with the class its failure has: the
   * creation's PDOException as an exception with its own message, and only
   * the (unreachable) cancellation as the pool's `\Error`.
   */
  lemma ConnectAfterFailedCreation(reg: Registry, t: Task, native: Native, e: ResourcePool.Failure)
    requires t.operation == "connect" && 1 <= |t.args| <= 4
    requires native.pullFailure == Some(CreationThrown(e))
    ensures Run(reg, t, native).Err?
    ensures e.Threw? ==> Run(reg, t, native) == Err(PoolFailed(e.message, ExceptionClass))
    ensures ClassOf(Run(reg, t, native).error) == ErrorClass <==> e.Interrupted?
    ensures e.Interrupted? ==>
      Run(reg, t, native) == Err(PoolFailed("The PdoPool shut down before the task could be executed", ErrorClass))
  {
  }

  /** `pdo:driverName` answers the name filed for the PDO found. */
  lemma DriverNameAnswers(reg: Registry, t: Task, n: nat, name: string, native: Native)
    requires t.operation == "pdo:driverName" && FindPdo(reg, t) == Ok(n)
    requires DriverNameKey(n) in reg && reg[DriverNameKey(n)] == DriverNameObj(name)
    ensures Run(reg, t, native) == Ok((reg, Str(name)))
  {
    PdoOperations();
    PdoRoute(reg, t, "driverName", native);
    RunPdoDriverName(reg, t, native);
  }

  lemma RunPdoDriverName(reg: Registry, t: Task, native: Native)
    requires FindPdo(reg, t).Ok?
    ensures var key := DriverNameKey(FindPdo(reg, t).value);
      RunPdo(reg, t, "driverName", native)
        == Ok((reg, if key in reg && reg[key].DriverNameObj? then Str(reg[key].name) else Null))
  {
    assert "driverName" != "prepare" && "driverName" != "query" && "driverName" != "destroy";
  }

  /** After `connect`, `pdo:driverName` on the returned id answers the lower-cased driver name. */
  lemma ConnectThenDriverName(reg: Registry, args: seq<Value>, native: Native, later: Native)
    requires Coherent(reg) && 1 <= |args| <= 4 && native.pullFailure.None? && native.failure.None? && native.pdoHandle >= 1
    ensures var reg1 := Run(reg, Task("connect", args, None), native).value.0;
      Run(reg1, Task("pdo:driverName", [], Some(PdoKey(native.pdoHandle))), later)
        == Ok((reg1, Str(ToLower(native.driverAttribute))))
  {
    var n := native.pdoHandle;
    var t0 := Task("connect", args, None);
    ConnectFiles(reg, t0, native);
    var reg1 := Run(reg, t0, native).value.0;
    RunKeepsCoherent(reg, t0, native);
    var t := Task("pdo:driverName", [], Some(PdoKey(n)));
    FindPdoOwnNumber(reg1, n, t.operation, later);
    DriverNameAnswers(reg1, t, n, ToLower(native.driverAttribute), later);
  }

  /** `pdo:prepare` files the new statement under `S:N:stmt` and answers that id. */
  lemma PrepareFiles(reg: Registry, t: Task, n: nat, native: Native)
    requires t.operation == "pdo:prepare" && FindPdo(reg, t) == Ok(n) && native.failure.None?
    ensures var key := StmtKey(native.stmtHandle, n);
      Run(reg, t, native) == Ok((reg[key := StmtObj(native.stmtHandle)], Str(key)))
  {
    PdoOperations();
    PdoRoute(reg, t, "prepare", native);
    var key := StmtKey(native.stmtHandle, n);
    assert RunPdo(reg, t, "prepare", native) == Ok((reg[key := StmtObj(native.stmtHandle)], Str(key)));
  }

  /** A `statement:` task whose id is filed gets past the lookup. */
  lemma StatementFound(reg: Registry, s: nat, n: nat, m: string, native: Native)
    requires StmtKey(s, n) in reg
    ensures Run(reg, Task("statement:" + m, [], Some(StmtKey(s, n))), native) != Err(StatementNotFound(IntToString(s)))
  {
    StmtKeyRoundTrip(s, n);
    StatementRoute(reg, Task("statement:" + m, [], Some(StmtKey(s, n))), m, native);
  }

  /**
   * `pdo:prepare` files the new statement under `S:N:stmt`, and a
   * `statement:` task with that id finds it.
   */
  lemma PrepareThenStatementFound(reg: Registry, n: nat, args: seq<Value>, native: Native, later: Native, m: string)
    requires Coherent(reg) && n >= 1 && PdoKey(n) in reg && reg[PdoKey(n)].PdoObj? && native.failure.None?
    ensures var r := Run(reg, Task("pdo:prepare", args, Some(PdoKey(n))), native);
      && r.Ok? && r.value.1 == Str(StmtKey(native.stmtHandle, n))
      && Run(r.value.0, Task("statement:" + m, [], Some(StmtKey(native.stmtHandle, n))), later)
           != Err(StatementNotFound(IntToString(native.stmtHandle)))
  {
    var t := Task("pdo:prepare", args, Some(PdoKey(n)));
    FindPdoOwnNumber(reg, n, t.operation, native);
    PrepareFiles(reg, t, n, native);
    StatementFound(Run(reg, t, native).value.0, native.stmtHandle, n, m, later);
  }

  /** `pdo:destroy` drops both entries of the PDO found. */
  lemma DestroyDrops(reg: Registry, t: Task, n: nat, native: Native)
    requires t.operation == "pdo:destroy" && FindPdo(reg, t) == Ok(n)
    ensures Run(reg, t, native) == Ok((reg - {DriverNameKey(n)} - {PdoKey(n)}, Bool(true)))
  {
    PdoOperations();
    PdoRoute(reg, t, "destroy", native);
    RunPdoDestroy(reg, t, native);
  }

  lemma RunPdoDestroy(reg: Registry, t: Task, native: Native)
    requires FindPdo(reg, t).Ok?
    ensures var n := FindPdo(reg, t).value;
      RunPdo(reg, t, "destroy", native) == Ok((reg - {DriverNameKey(n)} - {PdoKey(n)}, Bool(true)))
  {
    assert "destroy" != "prepare" && "destroy" != "query";
  }

  /** Without an entry for its PDO, a `pdo:` task on `N:pdo` is not found. */
  lemma PdoMissing(reg: Registry, n: nat, m: string, native: Native)
    requires n >= 1 && PdoKey(n) !in reg
    ensures Run(reg, Task("pdo:" + m, [], Some(PdoKey(n))), native) == Err(PdoNotFound(IntToString(n)))
  {
    var t := Task("pdo:" + m, [], Some(PdoKey(n)));
    assert Run(reg, t, native) == RunPdo(reg, t, m, native) by {
      PdoRoute(reg, t, m, native);
    }
    assert FindPdo(reg, t) == Err(PdoNotFound(IntToString(n))) by {
      PdoKeyRoundTrip(n);
      assert IntToString(n) != "" && IntToString(n) != "0" by {
        if IntToString(n) == "0" { DigitsOfNat(n); }
      }
    }
  }

  /** `pdo:destroy` removes both entries of its PDO, so a later call on that id is not found. */
  lemma DestroyForgetsPdo(reg: Registry, n: nat, native: Native, later: Native, m: string)
    requires Coherent(reg) && n >= 1 && PdoKey(n) in reg && reg[PdoKey(n)].PdoObj?
    ensures var r := Run(reg, Task("pdo:destroy", [], Some(PdoKey(n))), native);
      && r.Ok? && PdoKey(n) !in r.value.0 && DriverNameKey(n) !in r.value.0
      && Run(r.value.0, Task("pdo:" + m, [], Some(PdoKey(n))), later) == Err(PdoNotFound(IntToString(n)))
  {
    var t := Task("pdo:destroy", [], Some(PdoKey(n)));
    FindPdoOwnNumber(reg, n, t.operation, native);
    DestroyDrops(reg, t, n, native);
    PdoMissing(Run(reg, t, native).value.0, n, m, later);
  }
}
