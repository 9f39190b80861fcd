/**
 * The PDO statement that runs through a worker: how it turns its
 * parameter container into one `bindParams` call (a PDO type per value,
 * positions counted from 1, names formatted by the driver), what
 * `execute` sends, and how the worker statement's failures reach its caller.
 *
 * The driver's `formatParameterName` (the framework's PDO driver, which is
 * not part of this model) is a parameter; so is what the worker answers.
 */
module PdoStatement {
  import opened Wrappers
  import opened Php
  import opened ParameterContainer
  import PdoTask
  import WorkerProxy

  /** The `PDO::PARAM_*` types. */
  datatype PdoType = ParamNull | ParamInt | ParamStr | ParamLob | ParamBool

  /** One `[$parameter, $value, $type]` triple of the `bindParams` call. */
  datatype BoundParam = BoundParam(parameter: Key, value: Value, pdoType: PdoType)

  /** The type read off the value itself. */
  function InferType(v: Value): (t: PdoType)
    ensures t == ParamBool <==> v.Bool?
    ensures t == ParamInt <==> v.Int?
    ensures t == ParamStr <==> !(v.Bool? || v.Int?)
  {
    match v
    case Bool(_) => ParamBool
    case Int(_) => ParamInt
    case _ => ParamStr
  }

  /** The type sent: errata INTEGER, NULL and LOB override the inferred one; any other errata leaves it. */
  function TypeOf(p: Param): (t: PdoType)
    ensures p.errata == Some(TypeInteger) ==> t == ParamInt
    ensures p.errata == Some(TypeNull) ==> t == ParamNull
    ensures p.errata == Some(TypeLob) ==> t == ParamLob
    ensures !(p.errata.Some? && p.errata.value in {TypeInteger, TypeNull, TypeLob}) ==> t == InferType(p.value)
  {
    match p.errata
    case Some(TypeInteger) => ParamInt
    case Some(TypeNull) => ParamNull
    case Some(TypeLob) => ParamLob
    case _ => InferType(p.value)
  }

  /** Position `n` is bound as `n + 1`; a name is formatted by the driver, which may refuse it. */
  function ParameterFor(name: Key, format: string -> Result<string, string>): (r: Result<Key, string>)
    ensures name.IntKey? ==> r == Ok(IntKey(name.i + 1))
    ensures name.StrKey? && format(name.s).Ok? ==> r == Ok(StrKey(format(name.s).value))
    ensures name.StrKey? && format(name.s).Err? ==> r == Err(format(name.s).error)
  {
    match name
    case IntKey(n) => Ok(IntKey(n + 1))
    case StrKey(s) =>
      match format(s)
      case Ok(f) => Ok(StrKey(f))
      case Err(e) => Err(e)
  }

  /** The triples for the container, in container order; the first name the driver refuses aborts. */
  function Triples(params: seq<Param>, format: string -> Result<string, string>): (r: Result<seq<BoundParam>, string>)
    ensures r.Ok? ==> |r.value| == |params|
    decreases |params|
  {
    if |params| == 0 then Ok([])
    else
      var first :- ParameterFor(params[0].name, format);
      var rest :- Triples(params[1..], format);
      Ok([BoundParam(first, params[0].value, TypeOf(params[0]))] + rest)
  }

  /** Each triple carries its entry's value and type, under the entry's parameter. */
  lemma {:induction false} TriplesInOrder(params: seq<Param>, format: string -> Result<string, string>)
    requires Triples(params, format).Ok?
    ensures forall i :: 0 <= i < |params| ==>
      && Triples(params, format).value[i].value == params[i].value
      && Triples(params, format).value[i].pdoType == TypeOf(params[i])
      && Ok(Triples(params, format).value[i].parameter) == ParameterFor(params[i].name, format)
    decreases |params|
  {
    if |params| > 0 {
      TriplesInOrder(params[1..], format);
      var r := Triples(params, format).value;
      forall i | 1 <= i < |params| ensures r[i] == Triples(params[1..], format).value[i - 1] {
      }
    }
  }

  /** Binding fails exactly when the driver refuses one of the names. */
  lemma {:induction false} TriplesFail(params: seq<Param>, format: string -> Result<string, string>)
    ensures Triples(params, format).Err? <==>
      exists i :: 0 <= i < |params| && params[i].name.StrKey? && format(params[i].name.s).Err?
    decreases |params|
  {
    if |params| > 0 {
      TriplesFail(params[1..], format);
      if Triples(params[1..], format).Err? {
        var i :| 0 <= i < |params[1..]| && params[1..][i].name.StrKey? && format(params[1..][i].name.s).Err?;
        assert params[i + 1] == params[1..][i];
      }
      if exists i :: 0 <= i < |params| && params[i].name.StrKey? && format(params[i].name.s).Err? {
        var i :| 0 <= i < |params| && params[i].name.StrKey? && format(params[i].name.s).Err?;
        if i > 0 {
          assert params[1..][i - 1] == params[i];
        }
      }
    }
  }

  /** The statement's state. This class never sets `parametersBound` itself. */
  datatype PdoStmt = PdoStmt(prepared: bool, parametersBound: bool, container: Option<seq<Param>>)

  /** What the statement asks of its worker-side resource, in order. */
  datatype StmtEffect = PrepareCall | BindParamsCall(triples: seq<BoundParam>) | ExecuteCall

  /** `bindParametersFromContainer()`: nothing when bound already, else one `bindParams` call. */
  function BindFromContainer(bound: bool, params: seq<Param>, format: string -> Result<string, string>)
    : (r: Result<seq<StmtEffect>, string>)
    ensures bound ==> r == Ok([])
    ensures !bound && Triples(params, format).Ok? ==> r == Ok([BindParamsCall(Triples(params, format).value)])
    ensures !bound && Triples(params, format).Err? ==> r == Err(Triples(params, format).error)
  {
    if bound then Ok([])
    else
      var triples :- Triples(params, format);
      Ok([BindParamsCall(triples)])
  }

  /** What `execute` raises. */
  datatype ExecuteError =
    | InvalidName(message: string)                  // the driver refused a parameter name
    | Propagated(thrown: WorkerProxy.ProxyError)    // the resource's failure, as it is

  datatype ExecOutcome = ExecOutcome(stmt: PdoStmt, effects: seq<StmtEffect>, failure: Option<ExecuteError>)

  /** Everything `execute` does before it runs the statement: prepare, merge, bind. */
  function BeforeRun(st: PdoStmt, args: Arguments, format: string -> Result<string, string>)
    : (r: (PdoStmt, Result<seq<StmtEffect>, string>))
    ensures r.0.prepared && r.0.parametersBound == st.parametersBound
    ensures r.0.container == Some(Merge(st.container, args))
  {
    var prep := if st.prepared then [] else [PrepareCall];
    var params := Merge(st.container, args);
    var st1 := PdoStmt(true, st.parametersBound, Some(params));
    if |params| > 0 then
      match BindFromContainer(st.parametersBound, params, format)
      case Ok(b) => (st1, Ok(prep + b))
      case Err(e) => (st1, Err(e))
    else (st1, Ok(prep))
  }

  /**
   * `execute($parameters)`: prepare, merge and bind, then the resource's own
   * `execute()`, whose answer `run` is. The resource is a worker statement,
   * so its failures are the proxy's errors. None of them is a PDOException,
   * so the `catch` that would wrap one in an InvalidQueryException never
   * fires (and, naming a class of the statement's own namespace, it could
   * not catch one anyway): every failure of the resource propagates as it is.
   */
  function Execute(st: PdoStmt, args: Arguments, format: string -> Result<string, string>,
                   run: Result<Value, WorkerProxy.ProxyError>): (r: ExecOutcome)
    ensures r.stmt == BeforeRun(st, args, format).0
    ensures BeforeRun(st, args, format).1.Err? ==>
      r.failure == Some(InvalidName(BeforeRun(st, args, format).1.error)) && ExecuteCall !in r.effects
    ensures BeforeRun(st, args, format).1.Ok? ==> (r.failure.None? <==> run.Ok?)
    ensures BeforeRun(st, args, format).1.Ok? && run.Err? ==> r.failure == Some(Propagated(run.error))
  {
    var (st1, pre) := BeforeRun(st, args, format);
    match pre
    case Err(e) => ExecOutcome(st1, if st.prepared then [] else [PrepareCall], Some(InvalidName(e)))
    case Ok(effects) =>
      match run
      case Ok(_) => ExecOutcome(st1, effects + [ExecuteCall], None)
      case Err(t) => ExecOutcome(st1, effects + [ExecuteCall], Some(Propagated(t)))
  }

  /**
   * A PDOException of the worker's native `execute` reaches the caller as
   * the proxy's read error, not as an InvalidQueryException; an `\Error` of
   * the task reaches it as that error.
   */
  lemma WorkerFailureReachesCaller(st: PdoStmt, args: Arguments, format: string -> Result<string, string>,
                                   s: WorkerProxy.StatementProxy, e: PdoTask.TaskError)
    requires !s.busy && BeforeRun(st, args, format).1.Ok?
    ensures var outcome := WorkerProxy.TaskFailed(e);
      var run := WorkerProxy.CallStatement(s, WorkerProxy.StmtExecute(Null), outcome).1;
      && (PdoTask.ClassOf(e) == ExceptionClass ==>
            Execute(st, args, format, run).failure == Some(Propagated(WorkerProxy.StreamFailure(WorkerProxy.ReadFailedMessage, outcome))))
      && (PdoTask.ClassOf(e) == ErrorClass ==> Execute(st, args, format, run).failure == Some(Propagated(WorkerProxy.TaskThrew(e))))
  {
  }

  /** The calls made before the run: a prepare when unprepared, then a bind when there is something to bind. */
  lemma BeforeRunEffects(st: PdoStmt, args: Arguments, format: string -> Result<string, string>)
    requires BeforeRun(st, args, format).1.Ok?
    ensures var params := Merge(st.container, args);
      BeforeRun(st, args, format).1.value
      == (if st.prepared then [] else [PrepareCall])
         + (if |params| > 0 && !st.parametersBound then [BindParamsCall(Triples(params, format).value)] else [])
  {
  }

  /** A run that gets past binding ends with the execute call. */
  lemma ExecuteAppendsRun(st: PdoStmt, args: Arguments, format: string -> Result<string, string>,
                          run: Result<Value, WorkerProxy.ProxyError>)
    requires BeforeRun(st, args, format).1.Ok?
    ensures Execute(st, args, format, run).effects == BeforeRun(st, args, format).1.value + [ExecuteCall]
  {
  }

  /**
   * `execute` prepares only an unprepared statement, binds only a
   * non-empty, unbound container, and then runs the statement.
   */
  lemma ExecuteSteps(st: PdoStmt, args: Arguments, format: string -> Result<string, string>,
                     run: Result<Value, WorkerProxy.ProxyError>)
    requires BeforeRun(st, args, format).1.Ok?
    ensures var e := Execute(st, args, format, run).effects;
      var params := Merge(st.container, args);
      && |e| > 0 && e[|e| - 1] == ExecuteCall
      && (PrepareCall in e <==> !st.prepared)
      && ((exists k :: 0 <= k < |e| && e[k].BindParamsCall?) <==> |params| > 0 && !st.parametersBound)
  {
    var params := Merge(st.container, args);
    var prep := if st.prepared then [] else [PrepareCall];
    var bind := if |params| > 0 && !st.parametersBound then [BindParamsCall(Triples(params, format).value)] else [];
    BeforeRunEffects(st, args, format);
    ExecuteAppendsRun(st, args, format, run);
    var e := prep + bind + [ExecuteCall];
    assert Execute(st, args, format, run).effects == e;
    if bind != [] {
      assert e[|prep|].BindParamsCall?;
    }
  }

  /** `initialize()` and `setResource()`: a native PDO object is refused. */
  function Forbidden(methodName: string): (r: Result<PdoStmt, string>)
    ensures r.Err?
    ensures r.error == "Wtsergo\\LaminasDbDriverAsync\\AsyncPdo\\Statement::" + methodName + " method call is forbidden"
  {
    Err("Wtsergo\\LaminasDbDriverAsync\\AsyncPdo\\Statement::" + methodName + " method call is forbidden")
  }
}
