/**
 * What the worker-side PDO pool adds to the shared pool algorithm: the
 * positive-limit check at construction, the arity check of `getPdo`, and
 * the sequence of PDO calls one creation makes.
 */
module PdoPool {
  import opened Wrappers
  import opened Php
  import opened ResourcePool

  const LimitMessage := "PdoPool maximum size must be a positive integer"

  /** The constructor: a limit below 1 is refused. */
  function New(limit: int): (r: Result<Pool, string>)
    ensures r.Ok? <==> limit > 0
    ensures r.Ok? ==> Valid(r.value) && Count(r.value) == 0 && !r.value.cancelled
    ensures r.Ok? ==> r.value.limit == limit && r.value.flavour == WorkerPdos
    ensures r.Err? ==> r.error == LimitMessage
  {
    if limit <= 0 then Err(LimitMessage) else Ok(Empty(WorkerPdos, limit))
  }

  /** `new \PDO(...$params)` takes one to four arguments. */
  predicate ArityOk(params: seq<Value>) {
    1 <= |params| <= 4
  }

  function ArityMessage(n: nat): string {
    "PdoPool invalid number of connection params: " + NatToString(n)
  }

  /** `getPdo($params)`: the arity check, then `pull`. */
  function GetPdo(p: Pool, params: seq<Value>): (r: Result<(Pool, Acquire), string>)
    ensures !ArityOk(params) ==> r.Err? && r.error == ArityMessage(|params|)
    ensures ArityOk(params) ==> r == Pull(p)
    ensures r.Ok? ==> ArityOk(params) && !p.cancelled
  {
    if !ArityOk(params) then Err(ArityMessage(|params|)) else Pull(p)
  }

  /**
   * An idle PDO is handed out whatever parameters the caller asked for: the
   * pool does not remember which parameters built which connection.
   */
  lemma IdleReuseIgnoresParams(p: Pool, a: seq<Value>, b: seq<Value>)
    requires ArityOk(a) && ArityOk(b) && !p.cancelled && |p.idle| > 0
    ensures GetPdo(p, a) == GetPdo(p, b)
    ensures GetPdo(p, a).value.1 == Took(p.idle[0])
  {
  }

  // ---------------------------------------------------------------------------
  // One creation
  // ---------------------------------------------------------------------------

  const ConnectorOptionsKey := StrKey("connectorOptions")
  const InitStatementsKey := StrKey("initStatements")

  /** `$params[3]['connectorOptions'] ?? []`. */
  function ConnectorOptions(params: seq<Value>): (v: Value)
    ensures |params| > 3 && params[3].Arr? && IsSet(params[3].entries, ConnectorOptionsKey) ==>
      Some(v) == Lookup(params[3].entries, ConnectorOptionsKey)
    ensures !(|params| > 3 && params[3].Arr?) ==> v == Arr([])
  {
    if |params| > 3 && params[3].Arr? then Coalesce(params[3].entries, ConnectorOptionsKey, Arr([]))
    else Arr([])
  }

  /** The constructor arguments: the parameters with `connectorOptions` unset from the fourth. */
  function CtorArgs(params: seq<Value>): (args: seq<Value>)
    ensures |args| == |params|
    ensures forall i :: 0 <= i < |params| && i != 3 ==> args[i] == params[i]
    ensures |params| > 3 && params[3].Arr? ==>
      && args[3].Arr?
      && !HasKey(args[3].entries, ConnectorOptionsKey)
      && forall k :: k != ConnectorOptionsKey ==> Lookup(args[3].entries, k) == Lookup(params[3].entries, k)
    ensures |params| > 3 && !params[3].Arr? ==> args[3] == params[3]
  {
    if |params| > 3 && params[3].Arr? then params[..3] + [Arr(Unset(params[3].entries, ConnectorOptionsKey))] + params[4..]
    else params
  }

  /** `$connectorOptions['initStatements'] ?? []`, walked with `foreach`. */
  function InitStatements(params: seq<Value>): (stmts: seq<Value>)
    ensures var co := ConnectorOptions(params);
      !(co.Arr? && IsSet(co.entries, InitStatementsKey) && Lookup(co.entries, InitStatementsKey).value.Arr?) ==> stmts == []
  {
    var co := ConnectorOptions(params);
    if co.Arr? then
      var list := Coalesce(co.entries, InitStatementsKey, Arr([]));
      if list.Arr? then Values(list.entries) else []
    else []
  }

  /** The PDO calls a creation makes, in order, before the connection is stored. */
  datatype PdoCall = Construct(args: seq<Value>) | SetErrModeException | RunQuery(statement: Value)

  function CreationCalls(params: seq<Value>): (calls: seq<PdoCall>)
    ensures |calls| == 2 + |InitStatements(params)|
    ensures calls[0] == Construct(CtorArgs(params)) && calls[1] == SetErrModeException
    ensures forall i :: 0 <= i < |InitStatements(params)| ==> calls[2 + i] == RunQuery(InitStatements(params)[i])
  {
    [Construct(CtorArgs(params)), SetErrModeException] + Queries(InitStatements(params))
  }

  function Queries(stmts: seq<Value>): (calls: seq<PdoCall>)
    ensures |calls| == |stmts|
    ensures forall i :: 0 <= i < |stmts| ==> calls[i] == RunQuery(stmts[i])
  {
    if |stmts| == 0 then [] else [RunQuery(stmts[0])] + Queries(stmts[1..])
  }

  /**
   * The init statements are exactly the values listed under
   * `connectorOptions.initStatements` in the fourth parameter, in order, and
   * the constructor never sees that option.
   */
  lemma InitStatementsListed(params: seq<Value>, co: seq<Entry>, list: seq<Entry>)
    requires |params| == 4 && params[3].Arr?
    requires Lookup(params[3].entries, ConnectorOptionsKey) == Some(Arr(co))
    requires Lookup(co, InitStatementsKey) == Some(Arr(list))
    ensures InitStatements(params) == Values(list)
    ensures !HasKey(CtorArgs(params)[3].entries, ConnectorOptionsKey)
  {
  }
}
