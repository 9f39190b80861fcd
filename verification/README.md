# laminas-db-driver-async, modelled in Dafny

This project models the decision logic of an asynchronous database driver for
laminas-db. The driver comes in two families.

- **Worker-backed PDO family.** A `Connection` keeps a nested-transaction
  counter per fibre. It builds a DSN from its parameters and asks a worker
  process to `connect`. Proxies (`WorkerPdo`, `WorkerStatement`) turn every
  call into a `PdoTask`, allowing one request in flight at a time. Inside the
  worker, a `PdoTask` files PDO objects and statements in a string-keyed
  registry under ids `N:pdo`, `N:driverName` and `S:N:stmt`. A `PdoWorkerPool`
  hands out the least-loaded worker. The statement infers a PDO type for each
  parameter and binds them all in one call.
- **Asynchronous mysqli family.** A `ParentConnection` reads the connection
  parameters and connects. A `Statement` inlines its parameters into the SQL
  text, then sends the query, retrying on lost connections and deadlocks.
- **Shared pool.** Both families borrow resources from the same bounded pool
  algorithm. It exists three times in the source (`ConnectionPool`,
  `LinkPool`, `Worker/PdoPool`) and is modelled once.

Everything is modelled as pure functions over immutable datatypes:

- The fibre-local transaction state is an explicit value threaded through
  each call.
- The pool is a state machine over sequences. Its asynchronous creations are
  explicit events that succeed or fail.
- The worker registry is a `map<string, Obj>`.
- Native PDO and mysqli calls, and the worker's answers, become inputs, and
  the calls made become an effect list. This includes the outcome of each
  mysqli init statement and of each `reConnect()` in the retry loop, and
  what `getPdo` throws inside the worker.

The following are parameters because their definitions are not part of this
model:

- the MySQL platform's `quoteValue` and the text of a float (`Conversions`);
- `Connection::MAX_CONNECTION_RETRIES` (`maxRetries`);
- the PDO driver's `formatParameterName` (`format`);
- the value of `MYSQLI_CLIENT_SSL_DONT_VERIFY_SERVER_CERT` (`dontVerifyKey`).

The modules are:

| module | file | models |
|---|---|---|
| `Wrappers`, `Php` | wrappers.dfy, php.dfy | `Option`/`Result`; PHP arrays, values and the string built-ins used (`explode`, `implode`, `str_replace`, `intval`, ...) |
| `Transactions` | transactions.dfy | `beginTransaction`/`commit`/`rollBack` of the PDO connection |
| `PdoConnect` | pdo_connect.dfy | `connect()` of the PDO connection: parameters, DSN, task |
| `ResourcePool` | resource_pool.dfy | the bounded pool shared by the three pool classes |
| `PdoPool` | pdo_pool.dfy | what the worker-side PDO pool adds |
| `WorkerPool` | worker_pool.dfy | `PdoWorkerPool`: least-loaded selection and release |
| `PdoTask` | pdo_task.dfy | the worker task: operation routing, ids, registry |
| `WorkerProxy` | worker_proxy.dfy | `WorkerPdo` and `WorkerStatement` |
| `Platform` | platform.dfy | `quoteValue` and how MySQL reads the literal back |
| `ParamName` | param_name.dfy | the mysqli driver's `formatParameterName` |
| `ParameterContainer` | parameter_container.dfy | the container both statements merge their arguments into |
| `MysqliBinding` | mysqli_binding.dfy | how the mysqli statement inlines parameters into SQL |
| `MysqliStatement` | mysqli_statement.dfy | the mysqli statement's `prepare`/`execute` and retry loop |
| `PdoStatement` | pdo_statement.dfy | the PDO statement's binding and `execute` |
| `ParentConnection` | parent_connection.dfy | the mysqli link's `_connect`, `connect`, `reConnect`, `_realConnect` |

## Model

| member | source | states |
|---|---|---|
| Php.NumericPrefixHasDigits | src/AsyncPdo/Connection.php:142 | A string has a numeric prefix (after white space and one sign) exactly when the numeral read from it has at least one digit. |
| Php.ParseIntDigits | src/AsyncMysqli/ParentConnection.php:50 | `(int)` of a digit string, possibly signed or after white space, and followed by anything that does not continue the numeral, is the digits' value. |
| Php.NumericPrefixLenient | src/AsyncPdo/PdoTask.php:142-148 | White space before or after digits, or a sign before them, still leaves a numeric prefix. |
| Php.DigitStringValue | src/AsyncMysqli/Statement.php:188 | A digit string is numeric and `intval` reads its value. |
| Php.ParseIntExponent | src/AsyncMysqli/Statement.php:188 | `intval` of digits, `e` and digits is the mantissa times that power of ten. |
| Php.IntValOfExponent | src/AsyncPdo/Connection.php:142 | `(int) "1e3"` is 1000. |
| Transactions.EnsureConnected | src/AsyncPdo/Connection.php:261-263 | A bound flow is left alone with no call. An unbound flow makes exactly one physical connect, or fails with the connect error. |
| Transactions.Begin | src/AsyncPdo/Connection.php:260-278 | Fails while the rolled-back flag is set. Otherwise depth grows by one, and a physical BEGIN is issued exactly when depth was 0. A failure after a successful implicit connect keeps that connection bound. |
| Transactions.Commit | src/AsyncPdo/Connection.php:315-329 | At depth 1 with the flag clear: one physical COMMIT, back to idle. At depth 0: "Asymmetric transaction commit." At depth > 0 with the flag set: "rolled back ... not completed". At depth > 1: only decrements. On success depth was at least 1, so it never goes negative. A failure keeps a connection that was made. |
| Transactions.Rollback | src/AsyncPdo/Connection.php:336-348 | At depth 0: "Asymmetric transaction rollback." At depth 1: one physical ROLLBACK, back to idle with the flag clear. Deeper: sets the flag and decrements without any call. It never connects first: at depth 1 with no bound PDO it fails with the no-resource error. |
| Transactions.ApplyPreservesValid | src/AsyncPdo/Connection.php:260-348 | Every call keeps the invariant that the rolled-back flag is only set while a transaction is open. |
| Transactions.NestedBegins | src/AsyncPdo/Connection.php:269-275 | `n` nested begins on an idle connected flow reach depth `n` with exactly one physical BEGIN. |
| Transactions.NestedCommits | src/AsyncPdo/Connection.php:320-327 | `n` commits from depth `n` return to idle with exactly one physical COMMIT. |
| Transactions.BalancedCommit | src/AsyncPdo/Connection.php:260-329 | `n` begins followed by `n` commits issue exactly BEGIN then COMMIT and end idle. |
| Transactions.RolledBackBlocksCommit | src/AsyncPdo/Connection.php:264-268 | With the flag set, begin fails, and commit fails too (asymmetric at depth 0, "not completed" otherwise). |
| Transactions.RollbackUnwinds | src/AsyncPdo/Connection.php:336-348 | `n` rollbacks from depth `n` issue exactly one physical ROLLBACK and end idle with the flag clear. |
| Transactions.InnerRollbackThenCommitFails | src/AsyncPdo/Connection.php:315-348 | `begin; begin; rollBack; commit` fails on the final commit. |
| Transactions.Perform | src/AsyncPdo/Connection.php:289-313 | A call reads and writes only its own flow's slot (or the shared slot when fibre mode is off). Every other slot is unchanged, and it succeeds exactly when the call on that slot does; a failed call still stores the connection it made. |
| PdoConnect.PdoDriverOf | src/AsyncPdo/Connection.php:119-125 | A `driver` value names a PDO driver exactly when, lower-cased, it starts with `pdo`. The name kept contains no `-`, `_` or space, and is either truthy or empty: a remainder `0` is falsy and becomes the empty name. |
| PdoConnect.PdoPrefixAlias | src/AsyncPdo/Connection.php:119-123 | `pdo_<name>` and `pdo<name>` both name the driver `<name>`, e.g. `pdo_mysql` gives `mysql`, unless `<name>` is `0`. |
| PdoConnect.PrefixedDriver | src/AsyncPdo/Connection.php:119-123 | Any lower-case prefix that squeezes to `pdo` (such as `pdo-` or `pdo `) followed by a name other than `0` names that driver. |
| PdoConnect.PdoZeroDriver | src/AsyncPdo/Connection.php:121-123 | `pdo0` and `pdo_0` name the empty driver, because `substr` gives the falsy `"0"`. |
| PdoConnect.MergeOptions | src/AsyncPdo/Connection.php:157-161 | After the options merge, every key reads the later value when the later array has it, and the earlier value otherwise. |
| PdoConnect.ScanAllHost | src/AsyncPdo/Connection.php:113-165 | After the walk over the parameters, the hostname is set exactly when it was set before or some `host`/`hostname` parameter (any case) gives it. |
| PdoConnect.RenderRoundTrip | src/AsyncPdo/Connection.php:209 | A DSN rendered as `driver:` plus `;`-joined `key=value` fields parses back to the same driver and fields. |
| PdoConnect.DefaultDsnRoundTrip | src/AsyncPdo/Connection.php:175-210 | For a driver other than sqlite, the default DSN parses back to exactly the present fields. Order: dbname, host, port, charset (not for pgsql), unix_socket, version. sqlsrv uses database and server instead. |
| PdoConnect.Prepare | src/AsyncPdo/Connection.php:168-216 | Rejects hostname together with unix_socket. Rejects the case with neither a DSN nor a PDO driver. A given DSN is used as is; otherwise the default DSN is built from the walk, whose driver and port follow PHP's casts. Every other walk succeeds. Options, username and password come from the walk. |
| PdoConnect.PrepareDsnRoundTrip | src/AsyncPdo/Connection.php:168-216 | Without a given DSN, for a driver other than sqlite whose name has no `:`, and with no `;` inside the values, the DSN that `connect` builds parses back to the driver and the fields the walk collected. |
| PdoConnect.PrepareCasts | src/AsyncPdo/Connection.php:119-142 | `driver => "pdo0"` and `port => "1e3"` give the empty driver and port 1000, and the default DSN is built for them. |
| PdoConnect.Connect | src/AsyncPdo/Connection.php:102-240 | A bound flow is returned unchanged. With no pool it fails "Worker pool is not specified". Parameter errors propagate. The worker's answer gives the bound id and driver name; a task's exception gives the read error, a task's `\Error` passes through, and a worker failure gives the send error. |
| ResourcePool.Empty | src/AsyncMysqli/ConnectionPool.php:32-50 | A new pool is valid, holds nothing and is running. |
| ResourcePool.Pull | src/AsyncMysqli/ConnectionPool.php:95-145 | A cancelled pool fails with the shut-down message. Otherwise the front idle resource is taken without any creation. With none idle, a waiter is parked, and a creation starts only when created plus pending is below the limit. Validity is kept. |
| ResourcePool.Deliver | src/AsyncMysqli/ConnectionPool.php:43-49 | The push closure: with nobody waiting the resource joins the idle queue; otherwise the oldest waiter leaves the queue and, unless it is already settled, receives it. |
| ResourcePool.DeliverServesOldest | src/AsyncMysqli/ConnectionPool.php:43-49 | The waiter served is the oldest: its number is the smallest in the queue. |
| ResourcePool.DeliverConserves | src/AsyncMysqli/ConnectionPool.php:43-49 | A pushed resource lands exactly once, either idle or lent. |
| ResourcePool.Release | src/AsyncMysqli/PooledConnection.php:21-24 | Releasing a borrowed resource pushes it back. The count and storage are unchanged, validity is kept, and the oldest waiter gets it, or the idle queue does. |
| ResourcePool.CreationSucceeded | src/AsyncMysqli/ConnectionPool.php:115-133 | The pending creation ends, the new resource is attached to storage, then pushed, so it goes to the oldest waiter rather than necessarily the one that started it. Validity is kept. |
| ResourcePool.CreationSucceededAsWritten | src/AsyncMysqli/ConnectionPool.php:128-137 | As written: when the oldest waiter is already settled, completing it throws; the pool is cancelled, that waiter is dequeued, the creation's own waiter fails "Operation is no longer pending" unless settled, and the resource stays only in storage. Otherwise as `CreationSucceeded`. |
| ResourcePool.SucceededAsWrittenOnValid | src/AsyncMysqli/ConnectionPool.php:43-48 | On a valid pool no queued waiter is settled, so the as-written success is the corrected one. |
| ResourcePool.CreationFailed | src/AsyncMysqli/ConnectionPool.php:134-137 | The corrected handling: the pool is cancelled and the triggering waiter is failed with the error (unless already served) and removed from the queue. Validity is kept. |
| ResourcePool.CreationFailedAsWritten | src/AsyncMysqli/ConnectionPool.php:134-137 | As written: the pool is cancelled and the triggering waiter is failed, but it stays queued. |
| ResourcePool.FailedWaiterSwallowsResource | src/AsyncMysqli/ConnectionPool.php:128-137 | As written, a later creation's resource is pushed to the failed waiter. Completing it throws, so the catch fails the live waiter with "Operation is no longer pending"; the resource stays in storage, neither idle nor lent, and the pool's invariant is broken. |
| ResourcePool.FailedWaiterDropped | src/AsyncMysqli/ConnectionPool.php:134-137 | With the corrected handling, the same run delivers the resource to the waiter still waiting, and the pool stays valid. |
| ResourcePool.TwoParked | src/AsyncMysqli/ConnectionPool.php:95-145 | Two pulls on an empty pool of limit 2 park two waiters with two creations, in both pools. |
| ResourcePool.Shutdown | src/AsyncMysqli/ConnectionPool.php:52-57 | After the destructor the pool is cancelled, every `pull` fails, and validity is kept. |
| ResourcePool.StorageNeverShrinks | src/AsyncMysqli/ConnectionPool.php:151-155 | No operation removes a created resource: the detach after `return` is unreachable. |
| ResourcePool.Step | src/AsyncMysqli/ConnectionPool.php:95-137 | The corrected pool (a failed creation drops its waiter): any event keeps validity, never shrinks storage and never changes the limit. |
| ResourcePool.StepAsWritten | src/AsyncMysqli/ConnectionPool.php:95-137 | As written: the same as `Step` for every event except a failed creation, and for a success on a valid pool; storage never shrinks and the limit never changes. |
| ResourcePool.RunKeepsValid | src/AsyncMysqli/ConnectionPool.php:101-140 | In the corrected pool, every sequence of events from a valid pool stays valid. |
| ResourcePool.ReachableWithinLimit | src/AsyncMysqli/ConnectionPool.php:107-109 | In every pool the corrected events reach, created plus pending never exceeds the limit, and each created resource is idle or lent exactly once. |
| ResourcePool.PullCreatesOnlyBelowLimit | src/AsyncMysqli/ConnectionPool.php:102-109 | `pull` adds one pending creation exactly when nothing is idle and created plus pending is below the limit. |
| ResourcePool.NonPositiveLimitStarves | src/AsyncMysqli/ConnectionPool.php:32-36 | A pool built with a limit below 1 (only the PDO pool refuses one) never creates anything, and every `pull` parks. |
| ResourcePool.IsIdleIgnoresPending | src/AsyncMysqli/ConnectionPool.php:64-67 | `isIdle()` reports idle with a creation in flight at limit 1, yet the next `pull` only parks. |
| PdoPool.New | src/AsyncPdo/Worker/PdoPool.php:39-58 | Construction succeeds exactly for a positive limit, giving an empty valid running pool with that limit. Otherwise it fails with the size message. |
| PdoPool.GetPdo | src/AsyncPdo/Worker/PdoPool.php:101-119 | Fewer than 1 or more than 4 connection parameters are refused with their count. Otherwise it is `pull`. |
| PdoPool.IdleReuseIgnoresParams | src/AsyncPdo/Worker/PdoPool.php:124-178 | An idle PDO is handed out whatever parameters are asked for: the same answer for any two valid parameter lists. |
| PdoPool.ConnectorOptions | src/AsyncPdo/Worker/PdoPool.php:145 | The connector options are read from the fourth parameter when it is an array holding them, and are empty otherwise. |
| PdoPool.CtorArgs | src/AsyncPdo/Worker/PdoPool.php:145-147 | The constructor receives the parameters unchanged except that `connectorOptions` is removed from the fourth. |
| PdoPool.InitStatements | src/AsyncPdo/Worker/PdoPool.php:149-151 | The init statements are the values of `connectorOptions.initStatements` when it is an array, and none otherwise. |
| PdoPool.CreationCalls | src/AsyncPdo/Worker/PdoPool.php:145-152 | A creation constructs the PDO, sets the exception error mode, then runs each init statement in order. |
| PdoPool.InitStatementsListed | src/AsyncPdo/Worker/PdoPool.php:145-152 | The statements run are exactly those listed, in order, and the constructor never sees the option. |
| WorkerPool.LeastLoaded | src/AsyncPdo/PdoWorkerPool.php:73-80 | The worker chosen has a minimal count, and every later worker has a strictly larger one: ties go to the last visited. |
| WorkerPool.PickLeastLoaded | src/AsyncPdo/PdoWorkerPool.php:73-80 | The running-minimum loop picks exactly that worker. |
| WorkerPool.Select | src/AsyncPdo/PdoWorkerPool.php:54-92 | Below the limit the pool's worker is taken and its count grows by one, whether it was attached afresh or already tracked. Selection succeeds exactly when the limit is positive. The result is tracked, and tracked workers never exceed the limit. |
| WorkerPool.SelectAtLimit | src/AsyncPdo/PdoWorkerPool.php:73-89 | At the limit with the least-loaded worker running, that worker is returned and its count alone grows by exactly one. |
| WorkerPool.Release | src/AsyncPdo/PdoWorkerPool.php:43-51 | An untracked worker is ignored. Otherwise its count drops by one, and it is detached when the count reaches 0 or it is not running. Validity is kept. |
| WorkerPool.SelectReleaseFresh | src/AsyncPdo/PdoWorkerPool.php:43-70 | Selecting a fresh worker and releasing it restores the storage exactly. |
| PdoTask.NewTask | src/AsyncPdo/PdoTask.php:24-33 | A task is built exactly when the operation name is non-empty, keeping its arguments and id. |
| PdoTask.CoerceInt | src/AsyncPdo/PdoTask.php:142-148 | A string passed to an `int` parameter under coercive typing is accepted exactly when it has a numeric prefix (white space and a sign allowed), and its value is `intval` of it; a digit string gives its own value. |
| PdoTask.CoerceIntLenient | src/AsyncPdo/PdoTask.php:142-148 | Leading or trailing white space and a minus sign around digits are accepted, with the digits' value. |
| PdoTask.PdoKeyRoundTrip | src/AsyncPdo/PdoTask.php:74 | A pdo id `N:pdo` reads back as `N`, which coerces to the number `N`. |
| PdoTask.StmtKeyRoundTrip | src/AsyncPdo/PdoTask.php:158-164 | A statement id `S:N:stmt` is well formed, and its first and second parts are `S` and `N`. |
| PdoTask.PdoKeyInjective | src/AsyncPdo/PdoTask.php:142-148 | Different PDO numbers give different registry keys. |
| PdoTask.BindParams | src/AsyncPdo/PdoTask.php:193-198 | `bindParams` answers true exactly when every bind succeeds. The calls stop right after the first refusal. |
| PdoTask.RunConnect | src/AsyncPdo/PdoTask.php:95-101 | `connect` refuses fewer than 1 or more than 4 parameters. What `getPdo` throws fails it with its message and its class, and a failing `setAttribute` fails it with the PDOException. On success it files the PDO and its lower-cased driver name under the PDO's number and answers both. |
| PdoTask.RunStatement | src/AsyncPdo/PdoTask.php:177-238 | A statement that is not filed is "not found" under its first id part. `destroy` removes exactly its entry, and every other method leaves the registry unchanged. |
| PdoTask.FindPdo | src/AsyncPdo/PdoTask.php:121-131 | The PDO is looked up under the id's first part. An empty or non-numeric id and a missing entry are errors. |
| PdoTask.RunPdo | src/AsyncPdo/PdoTask.php:240-297 | Lookup errors propagate. `prepare`/`query` file one new statement. `destroy` removes the PDO's two entries. Every other method leaves the registry unchanged. |
| PdoTask.Run | src/AsyncPdo/PdoTask.php:56-93 | `connect` goes to the connect path. As written, a name without `:` fails with `sprintf`'s argument-count error. Otherwise the name is split at the first `:`, `statement`/`pdo` are routed, and any other type is rejected. |
| PdoTask.PdoRoute | src/AsyncPdo/PdoTask.php:73-75 | `pdo:<m>` runs `executePdoMethod` with method `m`. |
| PdoTask.StatementRoute | src/AsyncPdo/PdoTask.php:69-72 | `statement:<m>` with a well-formed id runs `executeStatementMethod` with method `m`. |
| PdoTask.AssertOperationNameAsWritten | src/AsyncPdo/PdoTask.php:88-93 | As written: a name with `:` passes, and one without makes `sprintf` itself fail for want of an argument. |
| PdoTask.AssertOperationName | src/AsyncPdo/PdoTask.php:88-93 | Corrected: a name passes exactly when it contains `:`, and the rejection names the operation. |
| PdoTask.OperationNameMessageLost | src/AsyncPdo/PdoTask.php:88-93 | For every name without `:`, the task fails with `sprintf`'s error, where the intended check throws "Invalid operation name" naming the operation. |
| PdoTask.NameError | src/AsyncPdo/PdoTask.php:88-93 | A failed name check becomes `sprintf`'s argument-count error exactly as written, and the invalid-name error exactly as intended. |
| PdoTask.ClassOf | src/AsyncPdo/PdoTask.php:22-295 | Every error the task throws is an `\Error`, with two exceptions. A PDO method's own failure is an exception. What `getPdo` throws keeps its own class. |
| PdoTask.CreationThrown | src/AsyncPdo/Worker/PdoPool.php:143-170 | A creation's PDOException, from `new \PDO` or from an init statement, leaves its waiter with an exception carrying its own message. Only the cancellation case gives the pool's `\Error` "The PdoPool shut down before the task could be executed", and as written nothing raises that case. |
| PdoTask.PullThrown | src/AsyncPdo/Worker/PdoPool.php:101-128 | `getPdo` throws at once exactly when the pool refuses, and what it throws is the `\Error` with the pool's message. |
| PdoTask.ConnectAfterShutdown | src/AsyncPdo/Worker/PdoPool.php:124-128 | Once the worker's pool is shut down, `connect` fails with the `\Error` "The PdoPool was shut down", and its class stays `\Error`. |
| PdoTask.ConnectAfterFailedCreation | src/AsyncPdo/Worker/PdoPool.php:143-175 | A failed creation fails `connect`. A PDOException reaches it as an exception with the creation's own message. The pool's `\Error` would come only from the cancellation catch, which is never reached. |
| PdoTask.RunKeepsCoherent | src/AsyncPdo/PdoTask.php:299-315 | Every task keeps each PDO filed under its own number. |
| PdoTask.FindPdoOwnNumber | src/AsyncPdo/PdoTask.php:121-131 | On a coherent registry, the PDO found for `N:pdo` is number `N`. |
| PdoTask.ConnectFiles | src/AsyncPdo/PdoTask.php:299-307 | `connect` files `N:pdo` and `N:driverName` and answers `[N:pdo, name]`. |
| PdoTask.DriverNameAnswers | src/AsyncPdo/PdoTask.php:292-293 | `pdo:driverName` answers the name filed for the PDO found, changing nothing. |
| PdoTask.ConnectThenDriverName | src/AsyncPdo/PdoTask.php:58-61 | After `connect`, `pdo:driverName` on the returned id answers the lower-cased driver name. |
| PdoTask.PrepareFiles | src/AsyncPdo/PdoTask.php:261-263 | `pdo:prepare` files the new statement under `S:N:stmt` and answers that id. |
| PdoTask.StatementFound | src/AsyncPdo/PdoTask.php:185-188 | A `statement:` task whose id is filed is never "not found". |
| PdoTask.PrepareThenStatementFound | src/AsyncPdo/PdoTask.php:309-315 | The id `pdo:prepare` answers is found by every later `statement:` task. |
| PdoTask.DestroyDrops | src/AsyncPdo/PdoTask.php:289-291 | `pdo:destroy` removes exactly the `driverName` and `pdo` entries of the PDO found. |
| PdoTask.PdoMissing | src/AsyncPdo/PdoTask.php:124-129 | A `pdo:` task on `N:pdo` whose entry is missing fails with "PDO resource not found" for `N`. |
| PdoTask.DestroyForgetsPdo | src/AsyncPdo/PdoTask.php:289-291 | After `pdo:destroy`, any later `pdo:` task on that id is "not found". |
| WorkerProxy.Dispatch | src/AsyncPdo/Resource/WorkerPdo.php:140-144 | A call fails with `PendingOperationError` exactly when the proxy is busy. Otherwise it becomes busy and sends the task unchanged. |
| WorkerProxy.Complete | src/AsyncPdo/Resource/WorkerPdo.php:145-155 | Whatever the outcome the proxy ends not busy. A task failure is "Reading from the worker failed" exactly when the task threw an `\Exception` (a PDOException, or a creation's exception reaching `getPdo`). An `\Error` thrown by the task passes through as itself. A worker failure gives "Sending the task to the worker failed". Anything else passes through. |
| WorkerProxy.RunTask | src/AsyncPdo/Resource/WorkerPdo.php:138-156 | While busy: refused, nothing sent, still busy. Otherwise exactly the task is sent, and the proxy ends not busy with the answer mapped as above (only a task's exception is wrapped). |
| WorkerProxy.OneRequestInFlight | src/AsyncPdo/Resource/WorkerPdo.php:138-156 | While a request is in flight any other call is refused and sends nothing; after it completes the next call goes out. |
| WorkerProxy.Execute | src/AsyncPdo/Resource/WorkerPdo.php:146-148 | The worker runs the task on its registry. A task that throws leaves the registry unchanged and comes back as a task failure carrying the error, whose class decides the proxy's answer. |
| WorkerProxy.PdoTaskFor | src/AsyncPdo/Resource/WorkerPdo.php:24-128 | Every call's task is a valid `PdoTask`: `pdo:<method>` with the call's arguments, aimed at the proxy's own id. |
| WorkerProxy.PdoReply | src/AsyncPdo/Resource/WorkerPdo.php:24-31 | `prepare`/`query` wrap the returned id in a statement proxy owned by this PDO and its worker. Other calls answer the worker's value. |
| WorkerProxy.PdoReplyAsWritten | src/AsyncPdo/Resource/WorkerPdo.php:65-71 | As written, `setAttribute` never returns its `bool`, so it ends in a return-type error. Other calls are as corrected. |
| WorkerProxy.CallPdo | src/AsyncPdo/Resource/WorkerPdo.php:24-156 | A call on a busy proxy is refused and sends nothing. Otherwise exactly its task is sent, the proxy ends not busy, and the answer is the reply or the mapped failure (a task's `\Error` passes through). Id and worker never change. |
| WorkerProxy.CallPdoAsWritten | src/AsyncPdo/Resource/WorkerPdo.php:65-71 | As written: like the corrected call, failures mapped the same way, except that a completed `setAttribute` fails with the return-type error. |
| WorkerProxy.SetAttributeResultLost | src/AsyncPdo/Resource/WorkerPdo.php:65-71 | A `setAttribute` the worker carried out fails on the client as written, and answers the worker's result as corrected. |
| WorkerProxy.StatementTaskFor | src/AsyncPdo/Resource/WorkerStatement.php:31-181 | Every statement call's task is a valid `statement:<method>` task aimed at the statement's id. `bindParams` passes its list directly as the task's arguments. |
| WorkerProxy.CallStatement | src/AsyncPdo/Resource/WorkerStatement.php:184-202 | The statement's own busy flag applies: refused while busy, otherwise exactly its task is sent and the proxy ends not busy with the answer mapped as for the PDO proxy (only a task's exception is wrapped). |
| WorkerProxy.StatementDestroy | src/AsyncPdo/Resource/WorkerStatement.php:24-29 | Release queues `statement:destroy` for the statement's id on its owning PDO's worker. |
| WorkerProxy.StatementReleasedOnOwnersWorker | src/AsyncPdo/Resource/WorkerPdo.php:24-31 | A statement handed out by `prepare`/`query` belongs to that PDO and is released through the PDO's worker. |
| WorkerProxy.PdoMethodsKnown | src/AsyncPdo/PdoTask.php:260-296 | Every method of the PDO proxy except `quote` is one the worker carries out. |
| WorkerProxy.StatementMethodsKnown | src/AsyncPdo/PdoTask.php:190-236 | Every method of the statement proxy is one the worker carries out. |
| WorkerProxy.PdoTaskRouted | src/AsyncPdo/PdoTask.php:73-75 | A PDO proxy's task reaches `executePdoMethod` with the call's method. |
| WorkerProxy.QuoteAlwaysFails | src/AsyncPdo/Resource/WorkerPdo.php:122-128 | `quote` on a PDO the worker knows always fails: the worker's "Invalid operation" `\Error` reaches the caller unwrapped, and the registry stays unchanged. |
| WorkerProxy.QuoteRefused | src/AsyncPdo/PdoTask.php:287-295 | The worker rejects `pdo:quote` as an invalid operation. |
| WorkerProxy.TaskFailureSurfaces | src/AsyncPdo/Resource/WorkerPdo.php:145-150 | An exception thrown in the worker reaches the caller as "Reading from the worker failed". That is a PDOException, or an exception-class failure of `getPdo`. Any other task error, including the pool's `\Error`, reaches the caller as itself. |
| WorkerProxy.StatementDestroyForgets | src/AsyncPdo/Resource/WorkerStatement.php:24-29 | A statement's release task, run by the worker, removes exactly that statement's entry. |
| WorkerProxy.PdoDestroyForgets | src/AsyncPdo/Resource/WorkerPdo.php:131-136 | A PDO's release task, run by the worker, removes both of its entries. |
| Platform.EscapeAsWritten | src/AsyncPdo/Platform.php:14 | `addcslashes` leaves a string with none of the listed characters unchanged. |
| Platform.Escape | src/AsyncPdo/Platform.php:14 | The corrected escaping also leaves such a string unchanged. |
| Platform.QuoteValueAsWritten | src/AsyncPdo/Platform.php:7-15 | Integers are returned unchanged. Anything else becomes a string wrapped in single quotes. |
| Platform.QuoteValue | src/AsyncPdo/Platform.php:7-15 | The same, and a string with none of the special characters becomes exactly `'` + s + `'`. |
| Platform.ReadBodyOfEscape | src/AsyncPdo/Platform.php:14 | An escaped string followed by a quote is read by MySQL as exactly that string, ending at the quote. |
| Platform.QuoteRoundTrip | src/AsyncPdo/Platform.php:14 | A quoted string is one whole literal. MySQL reads back exactly the original and stops at the closing quote, so nothing breaks out. |
| Platform.ReadBodyOfEscapeAsWritten | src/AsyncPdo/Platform.php:14 | The as-written escaping is also read up to its closing quote, but gives the string with NUL and 0x1a misread. |
| Platform.QuoteAsWrittenMisreadsNul | src/AsyncPdo/Platform.php:14 | The as-written literal also ends exactly at its delimiter, yet reads back with NUL and 0x1a changed. |
| Platform.NulMisread | src/AsyncPdo/Platform.php:14 | `"\0"` is quoted as `'\000'`, which MySQL reads as NUL, `0`, `0`. The corrected quoting reads back NUL. |
| Platform.EscapesAgree | src/AsyncPdo/Platform.php:14 | On strings without NUL or 0x1a, both escapings are equal. |
| ParamName.FormatParameterName | src/AsyncMysqli/Driver.php:29-46 | The positional path gives `?`. On the named path, all leading `:` are stripped and exactly one is put back. The name is refused, with the message naming it, exactly when a character falls outside `[a-zA-Z0-9_]`. |
| ParamName.PositionalMark | src/AsyncMysqli/Driver.php:31-45 | An untyped integer name, and any name with the positional style, give `?`. |
| ParamName.FormatIdempotent | src/AsyncMysqli/Driver.php:31-42 | Formatting a formatted named parameter again gives the same result. |
| ParamName.FormatsItself | src/AsyncMysqli/Driver.php:31-42 | `:` followed by a valid bare name formats to itself. |
| ParamName.ColonsStripped | src/AsyncMysqli/Driver.php:32-42 | `::a` and `a` format alike, to `:a`. |
| ParamName.DigitsAreNumeric | src/AsyncMysqli/Driver.php:31 | A digit string is numeric, so untyped it takes the positional path. |
| ParamName.ColonNotNumeric | src/AsyncMysqli/Driver.php:31 | A name starting with `:` is never numeric, so untyped it takes the named path. |
| ParameterContainer.SetValue | src/AsyncMysqli/Statement.php:39-41 | Setting a value keeps every name and errata. Only entries with that name change, and all of them get the value. A new name is appended without errata. |
| ParameterContainer.SetFromArrayLast | src/AsyncMysqli/Statement.php:39-41 | After merging an array, a name it gives holds the value of its last occurrence. |
| ParameterContainer.SetFromArrayAbsent | src/AsyncMysqli/Statement.php:39-41 | A name the array does not mention keeps its value. No entry loses its name or errata, and nothing appended carries that name. |
| ParameterContainer.Merge | src/AsyncMysqli/Statement.php:29-41 | A statement holding a container keeps it. One without adopts a given container, or starts empty. An array argument is merged in. |
| ParameterContainer.HeldContainerWins | src/AsyncMysqli/Statement.php:30-37 | A container argument given to a statement that already has one is ignored. |
| MysqliBinding.RenderUntyped | src/AsyncMysqli/Statement.php:195-203 | Without errata: null gives `NULL`, a boolean gives `1`/`0`, an integer its decimal text, and a string is quoted by the platform. |
| MysqliBinding.RenderErrataAsWritten | src/AsyncMysqli/Statement.php:180-194 | As written: INTEGER gives `intval`, DOUBLE the float's text, and STRING, LOB or other errata the quoted string. |
| MysqliBinding.RenderErrata | src/AsyncMysqli/Statement.php:180-194 | Corrected: the same, and a NULL errata gives `NULL`. |
| MysqliBinding.NullErrataBecomesZero | src/AsyncMysqli/Statement.php:185-189 | As written, a NULL errata renders as `0` whatever the value, where the corrected one gives `NULL`. The two agree on every other errata. |
| MysqliBinding.Placeholder | src/AsyncMysqli/Statement.php:207 | A named key gets a `:` prefix exactly when it lacks one. |
| MysqliBinding.Put | src/AsyncMysqli/Statement.php:208 | Assigning a placeholder replaces its text in place, or appends it, touching no other entry and keeping keys unique. |
| MysqliBinding.ClassifyPositional | src/AsyncMysqli/Statement.php:204-209 | The positional list is the rendered integer-named entries in container order, and the named placeholders are unique. |
| MysqliBinding.OnlyPositional | src/AsyncMysqli/Statement.php:204-206 | With only integer names there are no placeholders, and one rendered value per entry, in order. |
| MysqliBinding.NamedCollected | src/AsyncMysqli/Statement.php:207-208 | A placeholder holds the rendering of the last entry naming it, where `name` and `:name` are the same placeholder. |
| MysqliBinding.SortByLengthCorrect | src/AsyncMysqli/Statement.php:212 | The sort orders placeholders by descending length and is a permutation of its input. |
| MysqliBinding.SortByLengthStable | src/AsyncMysqli/Statement.php:212 | The sort is stable: placeholders of one length keep their container order. |
| MysqliBinding.PlaceholderBecomesText | src/AsyncMysqli/Statement.php:212-217 | With the one-scan replacement over sorted unique placeholders, a placeholder becomes exactly its text, whatever that text holds. |
| MysqliBinding.ValueRescanned | src/AsyncMysqli/Statement.php:217 | `str_replace` with arrays rescans inserted text: a quoted value spelling another placeholder is rewritten inside the literal. The one-scan replacement leaves it alone. |
| MysqliBinding.ReplaceEachAbsent | src/AsyncMysqli/Statement.php:217 | A fragment containing no placeholder is left unchanged. |
| MysqliBinding.AssembleFills | src/AsyncMysqli/Statement.php:214-221 | Interleaving the `?`-split fragments with the positional values equals filling the marks left to right, in both binders. A missing value gives the empty string, and one leftover value is appended. |
| MysqliBinding.PositionalFill | src/AsyncMysqli/Statement.php:180-221 | With positional parameters only, the SQL sent is the statement's SQL with its `?` marks filled in order by the as-written renderings (a NULL errata gives `0`), and the one-scan binder agrees with it. |
| MysqliBinding.FillSlotsExact | src/AsyncMysqli/Statement.php:214-221 | With exactly one value per mark, nothing is appended, and no marks and no values leave the SQL unchanged. |
| MysqliStatement.Finish | src/AsyncMysqli/Statement.php:123-125 | An attempt that is not retried ends with its result, or with a `RuntimeException` carrying its message and the original exception as previous. |
| MysqliStatement.Ending | src/AsyncMysqli/Statement.php:112-125 | An attempt that ends the loop ends it with the exception its `reConnect()` throws, unwrapped, when that reconnect throws. An attempt that is not retried ends it with its own result or wrapped exception. |
| MysqliStatement.ExecuteWithRetry | src/AsyncMysqli/Statement.php:75-130 | The loop agrees with the retry policy. It makes between 1 and `maxRetries + 1` attempts. Every attempt but the last continued the loop and the last did not. The result is the last attempt's ending: the exception of its reconnect when that reconnect threw, otherwise its own outcome. |
| MysqliStatement.RetryShape | src/AsyncMysqli/Statement.php:88-127 | From any attempt there is one query per attempt until the first attempt that does not continue the loop. There is one reconnect per retried connection error and none otherwise. A reconnect that throws happens before the retry limit, is the last effect, and its exception is the result. Otherwise the last attempt's outcome is the result. |
| MysqliStatement.RetryReconnects | src/AsyncMysqli/Statement.php:113-120 | A deadlock (1213) is retried without reconnecting. A lost connection (2006, 2013) reconnects, then retries. If the reconnect throws, the loop ends right there with that exception. |
| MysqliStatement.ReconnectRefused | src/AsyncMysqli/Statement.php:112-121 | When the link cannot connect again after a lost connection, the statement ends with the link's "Connection error" and its errno, after one query and one reconnect. |
| MysqliStatement.RetriesExhausted | src/AsyncMysqli/Statement.php:113-125 | Once the retries are used up, even a retryable error surfaces with its message and as the previous exception. |
| MysqliStatement.OtherErrorsSurface | src/AsyncMysqli/Statement.php:113-125 | Any other code surfaces after a single query. |
| MysqliStatement.RetrySendsOneSql | src/AsyncMysqli/Statement.php:89-127 | Every query the loop sends is the same SQL. |
| MysqliStatement.Prepare | src/AsyncMysqli/Statement.php:13-21 | `prepare` fails "already been prepared" exactly when the statement is prepared; otherwise it only marks it prepared. |
| MysqliStatement.PrepareTwice | src/AsyncMysqli/Statement.php:15-17 | Preparing twice fails. |
| MysqliStatement.BoundSql | src/AsyncMysqli/Statement.php:43-47 | The SQL sent is the as-written binding (NULL errata as `0`, `str_replace` rescanning); with an empty container it is the statement's SQL. |
| MysqliStatement.Merged | src/AsyncMysqli/Statement.php:25-41 | Before the query is sent, `execute` marks the statement prepared, so `prepare()` is refused, and stores the merged parameters in its container. |
| MysqliStatement.ExecuteIntended | src/AsyncMysqli/Statement.php:23-73 | The corrected `execute`. The container is always the merged one, and a failure leaves the statement prepared. A success never answers `false`; when buffered, it marks the result buffered and resets `prepared`. Every failure is a `RuntimeException`, or the exception of a reconnect made within the retry limit. |
| MysqliStatement.Execute | src/AsyncMysqli/Statement.php:23-73 | `execute` as written leaves the statement prepared, with the merged container, on every path. It has the same effects as the corrected version. Unbuffered, it agrees with the corrected version. Buffered, a success becomes the `\Error` of `store_result()` on a null resource, so a success is never buffered. |
| MysqliStatement.BufferedAlwaysFails | src/AsyncMysqli/Statement.php:64-66 | A buffered statement never succeeds as written. When the query answers `1`, it fails with the null-resource `\Error`, where the corrected version answers `1`, buffered, and leaves the statement preparable. |
| MysqliStatement.FailureKeepsState | src/AsyncMysqli/Statement.php:25-41 | After any `execute`, failed or not, `prepare()` is refused. A later `execute()` without arguments binds the parameters this call merged. |
| MysqliStatement.ExecuteSends | src/AsyncMysqli/Statement.php:43-54 | Whatever its outcome, an execution's effects are the retry loop's, sending the SQL bound as written. |
| MysqliStatement.ExecuteVerbatim | src/AsyncMysqli/Statement.php:43-47 | Without parameters, every query sent is the statement's SQL verbatim. |
| MysqliStatement.ExecuteReconnectRefused | src/AsyncMysqli/Statement.php:112-121 | An execution whose lost connection cannot be restored fails with the link's "Connection error", not a wrapped `RuntimeException`. |
| MysqliStatement.FalseIsAnError | src/AsyncMysqli/Statement.php:60-62 | A query answering `false` fails with the connection's last error. |
| MysqliStatement.ExecutePositional | src/AsyncMysqli/Statement.php:23-73 | With positional parameters only, each query sent is the SQL with its `?` marks filled in order by the as-written renderings. |
| MysqliStatement.NotSupported | src/AsyncMysqli/Statement.php:152-160 | `initialize` and `setResource` always fail with the method named "not supported". |
| PdoStatement.InferType | src/AsyncPdo/Statement.php:47-53 | The inferred type is BOOL exactly for booleans, INT exactly for integers, and STR otherwise. |
| PdoStatement.TypeOf | src/AsyncPdo/Statement.php:54-66 | INTEGER, NULL and LOB errata override the inferred type; any other errata, or none, keeps it. |
| PdoStatement.ParameterFor | src/AsyncPdo/Statement.php:69 | Position `n` is bound as `n + 1`. A name is formatted by the driver, whose refusal propagates. |
| PdoStatement.TriplesInOrder | src/AsyncPdo/Statement.php:44-71 | The triples follow container order, each with its entry's value, type and parameter. |
| PdoStatement.TriplesFail | src/AsyncPdo/Statement.php:69 | Binding fails exactly when the driver refuses one of the names. |
| PdoStatement.BindFromContainer | src/AsyncPdo/Statement.php:38-73 | Nothing happens when parameters are already bound. Otherwise exactly one `bindParams` call carries all the triples, or the refusal propagates. |
| PdoStatement.BeforeRun | src/AsyncPdo/Statement.php:75-98 | `execute` leaves the statement prepared with the merged container, and does not touch the bound flag. |
| PdoStatement.Execute | src/AsyncPdo/Statement.php:75-121 | A refused parameter name fails before the run. Otherwise `execute` succeeds exactly when the resource's `execute()` does, and the resource's failure propagates as it is: the worker statement never throws the PDOException the `catch` would wrap. |
| PdoStatement.WorkerFailureReachesCaller | src/AsyncPdo/Resource/WorkerStatement.php:184-202 | Through the worker statement, a task failure of exception class reaches the caller as the read error, and an `\Error` of the task as that error. |
| PdoStatement.ExecuteSteps | src/AsyncPdo/Statement.php:77-105 | `execute` prepares exactly when unprepared, binds exactly when the merged container is non-empty and unbound, and runs the statement last. |
| PdoStatement.Forbidden | src/AsyncPdo/Statement.php:16-30 | `initialize` and `setResource` always fail "method call is forbidden". |
| ParentConnection.FirstPresentAlias | src/AsyncMysqli/ParentConnection.php:36-44 | The lookup gives the value of the first alias that is set, and null when none is. |
| ParentConnection.FoundUnderAlias | src/AsyncMysqli/ParentConnection.php:36-44 | A non-null value found is the value set under one of the aliases. |
| ParentConnection.Flags | src/AsyncMysqli/ParentConnection.php:77-95 | Flags are present exactly when `use_ssl` is truthy and no socket is given. They then hold the SSL flag, plus don't-verify exactly when the driver options have it as a key. |
| ParentConnection.ReadParams | src/AsyncMysqli/ParentConnection.php:46-95 | Each field takes its first present alias. Port is the integer cast when set, and absent otherwise. Socket defaults to null, init statements to an empty list, and the flags are as above. |
| ParentConnection.AliasPriority | src/AsyncMysqli/ParentConnection.php:46-49 | `host` is used only when `hostname` is not set, and `schema` only when no other database alias is. |
| ParentConnection.SocketDisablesSsl | src/AsyncMysqli/ParentConnection.php:80 | With a non-empty socket, no flags are passed. |
| ParentConnection.InitQueries | src/AsyncMysqli/ParentConnection.php:128-130 | One query per value of the init statements array, in order, and none when it is not an array. |
| ParentConnection.RealConnectAsWritten | src/AsyncMysqli/ParentConnection.php:101-133 | As written, it fails with "Connection error", carrying the errno and the native error, when the connect did not succeed. After a connect, the first init statement that throws fails it with that statement's `mysqli_sql_exception`. Otherwise it connects and runs the init statements. It never sets the charset. |
| ParentConnection.RealConnect | src/AsyncMysqli/ParentConnection.php:101-133 | Corrected: a non-empty `charset` parameter is applied right after connecting. Otherwise the same as written. |
| ParentConnection.CharsetIgnored | src/AsyncMysqli/ParentConnection.php:124-126 | A `charset` parameter is lost as written and applied as intended. |
| ParentConnection.Connect | src/AsyncMysqli/ParentConnection.php:21-28 | A link with a resource is left alone. Otherwise the parameters are read and stored, the resource is created first, and it fails exactly when the connect fails or an init statement throws, with `_realConnect`'s error. As written, a successful connect never sets the charset. |
| ParentConnection.ConnectIntended | src/AsyncMysqli/ParentConnection.php:21-28 | The intended connect stores the same link and fails exactly when `Connect` does; on success it sets the charset exactly when `charset` is truthy. |
| ParentConnection.ReConnect | src/AsyncMysqli/ParentConnection.php:14-20 | Without a resource it fails with the `LogicException` message. Otherwise it connects with the stored parameters, failing exactly when the connect fails or an init statement throws, and never sets the charset. |
| ParentConnection.ReconnectReusesParams | src/AsyncMysqli/ParentConnection.php:14-28 | A reconnect after a connect, successful or not, is `_realConnect` on exactly the parameters `_connect` read. |
| ParentConnection.InitStatementThrows | src/AsyncMysqli/ParentConnection.php:128-130 | An init statement that throws fails `connect()` with its exception, yet the link keeps its resource, so a later `connect()` does nothing. |

## Left out

- The event loop, fibres and worker processes are not modelled: `EventLoop::onMysqli`, suspensions, `async`, futures, IPC, cancellation tokens and destructor timing. Async creations, worker answers and native call results are explicit inputs. A borrow wrapper's destructor is the explicit `ResourcePool.Release` / `WorkerPool.Release` step.
- The pending-worker await in `selectWorker` (src/AsyncPdo/PdoWorkerPool.php:56) is not modelled: it only serialises concurrent callers.
- Floats are not modelled. The value model has no float, so `sprintf('%F')` (src/AsyncPdo/Platform.php:11-12) is out, and the text of `floatval` (src/AsyncMysqli/Statement.php:183) is the parameter `floatText`.
- PHP integers are unbounded here. The 64-bit width and `PHP_INT_MAX` play no part in the decisions modelled: a worker's count never approaches it.
- The framework's `ParameterContainer` is not part of this model. It is a sequence of entries keyed by name, with errata; its position map and offset API are not modelled.
- `MysqlPlatform::quoteValue`, `Connection::MAX_CONNECTION_RETRIES` and the PDO driver's `formatParameterName` are not part of this model. They are parameters.
- The mysqli client flags are a set of named flags rather than a bit mask. `MYSQLI_CLIENT_SSL_DONT_VERIFY_SERVER_CERT` is the parameter `dontVerifyKey`.
- The `options()` calls for each driver option in `_connect` (src/AsyncMysqli/ParentConnection.php:64-75) are left out. They depend on PHP constants and native mysqli.
- Profiler calls and `createResult` are left out (src/AsyncMysqli/Statement.php:50-72). The buffered path's `store_result()` is kept only as the `\Error` it throws on the unset resource.
- The PDO statement's base-class `prepare` is a `PrepareCall` effect. Its `parametersBound` flag is never set by this class, so it is an input.
- PdoTask's native PDO objects are numbers. Their methods' return values are inputs, and `spl_object_id` is the number itself.
- The methods of `Connection` outside `connect` and the transaction calls (`execute`, `getLastGeneratedValue`, `disconnect`, ...) are not modelled. Nor are the interfaces, `Result` or the glue classes.
- ResourcePool.Release: requires the resource to be lent. A borrow wrapper exists only for a resource handed out by `pull`.
- PdoStatement.Triples: its own contract states only the length. Order, values and types are stated by `PdoStatement.TriplesInOrder` and `PdoStatement.TriplesFail`.
- MysqliStatement.ExecuteIntended: its own contract states the statement state, the shape of a success, and that failures are runtime errors or a reconnect's exception. The full trace and result are stated by `MysqliStatement.RetryShape` and `MysqliStatement.ExecuteSends`.
- ParentConnection.RealConnect: the corrected `set_charset` call is taken to succeed. Only the init statements can throw after the connect.
- Php.ParseInt: a numeral with a fraction or an exponent is truncated exactly. PHP reads such a numeral as a double first, so one too long or too large for a double rounds or saturates there; integers are unbounded here, as above.
- Numeric-string array keys are not modelled. PHP stores a key such as `"1"` as the integer 1; the model takes every key as already normalised, so a decimal integer is always an `IntKey`.
- PdoTask.CoerceInt: accepts every string with a numeric prefix, truncated. PHP also raises a deprecation for a fractional value and a `TypeError` for a value outside the 64-bit range; neither is modelled.
- ResourcePool.Release: pushing onto a waiter that is already settled throws at the releaser in the source. The model keeps the pool state that push leaves, but not the exception.
- The `catch (CancelledException)` in the worker's pooled creation (src/AsyncPdo/Worker/PdoPool.php:153-154) is dead: nothing in the creation observes the captured `$cancellation`. `PdoTask.CreationThrown` still maps that case, so that the shared pool model's `Interrupted` failure has its message, but a shut-down never interrupts a PDO creation.
- PdoStatement.Execute: the worker answers to the `prepare` and `bindParams` calls it makes are taken as successful. Only the run's failure is an input.

## Findings

| source | as written | input that shows it | evidently intended | confidence | as-written member | corrected member |
|---|---|---|---|---|---|---|
| src/AsyncMysqli/Statement.php:185-188 | the `TYPE_NULL` case has no `break` and falls into `TYPE_INTEGER`, so `'NULL'` becomes `intval('NULL')` = 0 | any parameter with errata `TYPE_NULL` is inlined as `0` | inline SQL `NULL` | not executed; high | MysqliBinding.RenderErrataAsWritten | MysqliBinding.RenderErrata |
| src/AsyncMysqli/ParentConnection.php:124-126 | `_realConnect` reads `$p['charset']`, but `$p` is not defined in that method | connection parameters with `charset => utf8mb4` never call `set_charset` | apply the connection's `charset` parameter | not executed; high | ParentConnection.RealConnectAsWritten | ParentConnection.RealConnect |
| src/AsyncMysqli/ConnectionPool.php:134-137 | a failed creation errors its waiter but leaves it in the waiter queue | limit 2, two pulls, first creation fails, second succeeds: the resource is pushed to the failed waiter, completing it throws, and the catch fails the live waiter with "Operation is no longer pending" while the resource stays in storage, neither idle nor lent | remove the failed waiter from the queue | not executed; medium | ResourcePool.FailedWaiterSwallowsResource | ResourcePool.FailedWaiterDropped |
| src/AsyncPdo/PdoTask.php:91 | the operation is concatenated into the `sprintf` format and no argument is passed | the operation `foo` makes `sprintf` throw its own argument-count error | the message "Invalid operation name 'foo'" | not executed; high | PdoTask.AssertOperationNameAsWritten | PdoTask.AssertOperationName |
| src/AsyncPdo/Resource/WorkerPdo.php:65-71 | `setAttribute(): bool` returns nothing | any `setAttribute` that the worker completes ends in a return-type error | return the worker's answer | not executed; high | WorkerProxy.CallPdoAsWritten | WorkerProxy.CallPdo |
| src/AsyncPdo/Platform.php:14 | `addcslashes` writes NUL and 0x1a as octal `\000` and `\032`, which MySQL does not read as octal | the string `"\0"` is quoted `'\000'` and read back as NUL, `0`, `0` | MySQL's own escapes `\0` and `\Z`, so that the value reads back unchanged | not executed; medium | Platform.QuoteValueAsWritten | Platform.QuoteValue |
| src/AsyncMysqli/Statement.php:217 | `str_replace` with arrays rescans text already inserted | placeholders `:ab => ':c'` and `:c => 1` turn `:ab` into `'1'` | each placeholder replaced once, its text inserted as is | not executed; high | MysqliBinding.ValueRescanned | MysqliBinding.PlaceholderBecomesText |
| src/AsyncMysqli/Statement.php:64-66 | the buffered path calls `store_result()` on `$this->resource`, which this class never sets: `prepare`, `initialize` and `setResource` do not set it | a statement with `bufferResults` whose query answers a result throws `\Error` "Call to a member function store_result() on null", after the query ran and with the statement still prepared | store the result of the statement actually executed, mark it buffered and reset `prepared` | not executed; high | MysqliStatement.BufferedAlwaysFails | MysqliStatement.ExecuteIntended |
