/**
 * The nested-transaction state machine of the worker-backed PDO connection.
 * The program keeps the depth counter and the rolled-back flag in fibre-local
 * storage; here they are an explicit per-flow value threaded through each
 * call, and a map from flow slot to that value stands for the storage.
 */
module Transactions {
  import opened Wrappers

  /** Nesting depth (0 = no open transaction) and the rolled-back flag. */
  datatype TxState = TxState(depth: nat, rolledBack: bool)

  const Idle := TxState(0, false)

  /** The flag can only be set while a transaction is open. */
  ghost predicate Valid(t: TxState) {
    t.depth == 0 ==> !t.rolledBack
  }

  /** A flow's view of the connection: is a worker PDO bound, and its transaction state. */
  datatype Flow = Flow(connected: bool, tx: TxState)

  const Fresh := Flow(false, Idle)

  /** Calls made on the worker-backed PDO resource. */
  datatype Physical = PhysicalConnect | PhysicalBegin | PhysicalCommit | PhysicalRollback

  datatype TxError =
    | RolledBackIncomplete      // 'Rolled back transaction has not been completed correctly.'
    | AsymmetricCommit          // 'Asymmetric transaction commit.'
    | AsymmetricRollback        // 'Asymmetric transaction rollback.'
    | ConnectFailed(msg: string)   // the implicit connect raised
    | PhysicalFailed(msg: string)  // the worker call itself raised
    | NoResource                // a physical rollback on a flow without a bound resource

  /**
   * What the outside world answers: the error the implicit connect raises, if
   * any, and the error the physical BEGIN/COMMIT/ROLLBACK raises, if any.
   */
  datatype Env = Env(connectError: Option<string>, physicalError: Option<string>)

  const Healthy := Env(None, None)

  /** The outcome of one call: the new flow state and the calls made, in order. */
  datatype Step = Step(flow: Flow, calls: seq<Physical>)

  /**
   * A call that raised: the error, the flow state it leaves behind (an
   * implicit connect that succeeded stays bound) and the calls it issued,
   * the one that raised included.
   */
  datatype Failed = Failed(error: TxError, flow: Flow, calls: seq<Physical>)

  /** `if (!$this->isConnected()) $this->connect();` */
  function EnsureConnected(f: Flow, env: Env): (r: Result<Step, Failed>)
    ensures f.connected ==> r == Ok(Step(f, []))
    ensures !f.connected && env.connectError.None? ==> r == Ok(Step(f.(connected := true), [PhysicalConnect]))
    ensures !f.connected && env.connectError.Some? ==> r == Err(Failed(ConnectFailed(env.connectError.value), f, []))
  {
    if f.connected then Ok(Step(f, []))
    else if env.connectError.Some? then Err(Failed(ConnectFailed(env.connectError.value), f, []))
    else Ok(Step(f.(connected := true), [PhysicalConnect]))
  }

  /** The physical call `p`, then the new transaction state `t` when it returns. */
  function Physically(f: Flow, calls: seq<Physical>, p: Physical, t: TxState, env: Env): (r: Result<Step, Failed>)
    ensures env.physicalError.Some? ==> r == Err(Failed(PhysicalFailed(env.physicalError.value), f, calls + [p]))
    ensures env.physicalError.None? ==> r == Ok(Step(f.(tx := t), calls + [p]))
    ensures env.physicalError.None? && calls == [] ==> r == Ok(Step(f.(tx := t), [p]))
  {
    if env.physicalError.Some? then Err(Failed(PhysicalFailed(env.physicalError.value), f, calls + [p]))
    else
      assert [] + [p] == [p];
      Ok(Step(f.(tx := t), calls + [p]))
  }

  /** Running a single call is just that call. */
  lemma RunOne(f: Flow, op: Op, env: Env)
    ensures Run(f, [op], env) == Apply(f, op, env)
  {
    if Apply(f, op, env).Ok? {
      var s := Apply(f, op, env).value;
      assert [op][1..] == [];
      assert s.calls + [] == s.calls;
    }
  }

  /** `beginTransaction()`. */
  function Begin(f: Flow, env: Env): (r: Result<Step, Failed>)
    ensures f.connected && f.tx.rolledBack ==> r == Err(Failed(RolledBackIncomplete, f, []))
    ensures f.connected && !f.tx.rolledBack && f.tx.depth == 0 && env.physicalError.None? ==>
              r == Ok(Step(f.(tx := TxState(1, false)), [PhysicalBegin]))
    ensures f.connected && !f.tx.rolledBack && f.tx.depth > 0 ==>
              r == Ok(Step(f.(tx := f.tx.(depth := f.tx.depth + 1)), []))
    ensures r.Ok? ==> r.value.flow.connected && r.value.flow.tx.depth == f.tx.depth + 1
    ensures r.Ok? ==> (PhysicalBegin in r.value.calls <==> f.tx.depth == 0)
    ensures r.Err? ==> r.error.flow.tx == f.tx
    ensures r.Err? ==> (r.error.flow.connected <==> f.connected || env.connectError.None?)
  {
    var s :- EnsureConnected(f, env);
    var g := s.flow;
    if g.tx.rolledBack then Err(Failed(RolledBackIncomplete, g, s.calls))
    else
      var t := g.tx.(depth := g.tx.depth + 1);
      if g.tx.depth == 0 then Physically(g, s.calls, PhysicalBegin, t, env)
      else Ok(Step(g.(tx := t), s.calls))
  }

  /** `commit()`. */
  function Commit(f: Flow, env: Env): (r: Result<Step, Failed>)
    ensures f.connected && f.tx.depth == 1 && !f.tx.rolledBack && env.physicalError.None? ==>
              r == Ok(Step(f.(tx := Idle), [PhysicalCommit]))
    ensures f.connected && f.tx.depth == 0 ==> r == Err(Failed(AsymmetricCommit, f, []))
    ensures f.connected && f.tx.depth > 0 && f.tx.rolledBack ==> r == Err(Failed(RolledBackIncomplete, f, []))
    ensures f.connected && f.tx.depth > 1 && !f.tx.rolledBack ==>
              r == Ok(Step(f.(tx := f.tx.(depth := f.tx.depth - 1)), []))
    ensures r.Ok? ==> f.tx.depth >= 1 && !f.tx.rolledBack && r.value.flow.tx.depth == f.tx.depth - 1
    ensures r.Err? ==> r.error.flow.tx == f.tx
    ensures r.Err? ==> (r.error.flow.connected <==> f.connected || env.connectError.None?)
  {
    var s :- EnsureConnected(f, env);
    var g := s.flow;
    if g.tx.depth == 1 && !g.tx.rolledBack then Physically(g, s.calls, PhysicalCommit, Idle, env)
    else if g.tx.depth == 0 then Err(Failed(AsymmetricCommit, g, s.calls))
    else if g.tx.rolledBack then Err(Failed(RolledBackIncomplete, g, s.calls))
    else Ok(Step(g.(tx := g.tx.(depth := g.tx.depth - 1)), s.calls))
  }

  /** `rollBack()`; unlike the other two it does not connect first. */
  function Rollback(f: Flow, env: Env): (r: Result<Step, Failed>)
    ensures f.tx.depth == 0 ==> r == Err(Failed(AsymmetricRollback, f, []))
    ensures f.connected && f.tx.depth == 1 && env.physicalError.None? ==>
              r == Ok(Step(f.(tx := Idle), [PhysicalRollback]))
    ensures !f.connected && f.tx.depth == 1 ==> r == Err(Failed(NoResource, f, []))
    ensures f.tx.depth > 1 ==> r == Ok(Step(f.(tx := TxState(f.tx.depth - 1, true)), []))
    ensures r.Err? ==> r.error.flow == f
  {
    if f.tx.depth == 1 then
      if !f.connected then Err(Failed(NoResource, f, []))
      else Physically(f, [], PhysicalRollback, Idle, env)
    else if f.tx.depth == 0 then Err(Failed(AsymmetricRollback, f, []))
    else Ok(Step(f.(tx := TxState(f.tx.depth - 1, true)), []))
  }

  datatype Op = BeginOp | CommitOp | RollbackOp

  function Apply(f: Flow, op: Op, env: Env): Result<Step, Failed> {
    match op
    case BeginOp => Begin(f, env)
    case CommitOp => Commit(f, env)
    case RollbackOp => Rollback(f, env)
  }

  /** Every call keeps the flag confined to open transactions. */
  lemma ApplyPreservesValid(f: Flow, op: Op, env: Env)
    requires Valid(f.tx)
    ensures Apply(f, op, env).Ok? ==> Valid(Apply(f, op, env).value.flow.tx)
  {
  }

  /** Puts `calls` in front of the calls of an outcome. */
  function After(calls: seq<Physical>, r: Result<Step, Failed>): Result<Step, Failed> {
    match r
    case Ok(t) => Ok(Step(t.flow, calls + t.calls))
    case Err(e) => Err(e.(calls := calls + e.calls))
  }

  /** Runs a sequence of calls in one flow, stopping at the first error. */
  function Run(f: Flow, ops: seq<Op>, env: Env): Result<Step, Failed>
    decreases |ops|
  {
    if |ops| == 0 then Ok(Step(f, []))
    else
      var s :- Apply(f, ops[0], env);
      After(s.calls, Run(s.flow, ops[1..], env))
  }

  function Repeat(op: Op, n: nat): (ops: seq<Op>)
    ensures |ops| == n && forall i :: 0 <= i < n ==> ops[i] == op
  {
    if n == 0 then [] else [op] + Repeat(op, n - 1)
  }

  lemma AfterAfter(x: seq<Physical>, y: seq<Physical>, r: Result<Step, Failed>)
    ensures After(x, After(y, r)) == After(x + y, r)
  {
    if r.Ok? {
      assert x + (y + r.value.calls) == (x + y) + r.value.calls;
    } else {
      assert x + (y + r.error.calls) == (x + y) + r.error.calls;
    }
  }

  /** Running `a + b` is running `a`, then `b` from where `a` left the flow. */
  lemma {:induction false} RunConcat(f: Flow, a: seq<Op>, b: seq<Op>, env: Env)
    requires Run(f, a, env).Ok?
    ensures Run(f, a + b, env) == After(Run(f, a, env).value.calls, Run(Run(f, a, env).value.flow, b, env))
    decreases |a|
  {
    if |a| == 0 {
      assert a + b == b;
      var r := Run(f, b, env);
      if r.Ok? {
        assert [] + r.value.calls == r.value.calls;
      } else {
        assert [] + r.error.calls == r.error.calls;
      }
    } else {
      assert (a + b)[1..] == a[1..] + b;
      var s := Apply(f, a[0], env).value;
      RunConcat(s.flow, a[1..], b, env);
      var u := Run(s.flow, a[1..], env).value;
      AfterAfter(s.calls, u.calls, Run(u.flow, b, env));
    }
  }

  /** `n` nested begins from an idle connected flow issue exactly one BEGIN. */
  lemma {:induction false} NestedBegins(n: nat)
    requires n >= 1
    ensures Run(Flow(true, Idle), Repeat(BeginOp, n), Healthy)
         == Ok(Step(Flow(true, TxState(n, false)), [PhysicalBegin]))
  {
    if n == 1 {
      assert Repeat(BeginOp, 1) == [BeginOp];
      RunOne(Flow(true, Idle), BeginOp, Healthy);
    } else {
      NestedBegins(n - 1);
      assert Repeat(BeginOp, n) == Repeat(BeginOp, n - 1) + [BeginOp];
      RunConcat(Flow(true, Idle), Repeat(BeginOp, n - 1), [BeginOp], Healthy);
      RunOne(Flow(true, TxState(n - 1, false)), BeginOp, Healthy);
      assert [PhysicalBegin] + [] == [PhysicalBegin];
    }
  }

  lemma RepeatSnoc(op: Op, n: nat)
    ensures Repeat(op, n + 1) == Repeat(op, n) + [op]
  {
  }

  /** Unwinding `n` open levels with `n` commits issues exactly one COMMIT. */
  lemma {:induction false} NestedCommits(n: nat)
    requires n >= 1
    ensures Run(Flow(true, TxState(n, false)), Repeat(CommitOp, n), Healthy)
         == Ok(Step(Flow(true, Idle), [PhysicalCommit]))
  {
    if n > 1 {
      NestedCommits(n - 1);
      assert Repeat(CommitOp, n)[1..] == Repeat(CommitOp, n - 1);
      assert [] + [PhysicalCommit] == [PhysicalCommit];
    } else {
      assert Repeat(CommitOp, 1)[1..] == [];
      assert [PhysicalCommit] + [] == [PhysicalCommit];
    }
  }

  /**
   * Balanced nesting: `n` begins then `n` commits return the flow to idle
   * having issued exactly one physical BEGIN and one physical COMMIT.
   */
  lemma BalancedCommit(n: nat)
    requires n >= 1
    ensures Run(Flow(true, Idle), Repeat(BeginOp, n) + Repeat(CommitOp, n), Healthy)
         == Ok(Step(Flow(true, Idle), [PhysicalBegin, PhysicalCommit]))
  {
    NestedBegins(n);
    NestedCommits(n);
    RunConcat(Flow(true, Idle), Repeat(BeginOp, n), Repeat(CommitOp, n), Healthy);
    assert [PhysicalBegin] + [PhysicalCommit] == [PhysicalBegin, PhysicalCommit];
  }

  /** Once an inner level rolled back, every enclosing commit fails until the nest unwinds. */
  lemma {:induction false} RolledBackBlocksCommit(f: Flow, env: Env)
    requires f.tx.rolledBack && f.connected
    ensures Commit(f, env) == Err(Failed(if f.tx.depth == 0 then AsymmetricCommit else RolledBackIncomplete, f, []))
    ensures Begin(f, env) == Err(Failed(RolledBackIncomplete, f, []))
  {
  }

  /** Unwinding a rolled-back nest of depth `n` with `n` rollbacks issues one ROLLBACK and clears the flag. */
  lemma {:induction false} RollbackUnwinds(n: nat, flag: bool)
    requires n >= 1
    ensures Run(Flow(true, TxState(n, flag)), Repeat(RollbackOp, n), Healthy)
         == Ok(Step(Flow(true, Idle), [PhysicalRollback]))
  {
    if n > 1 {
      RollbackUnwinds(n - 1, true);
      assert Repeat(RollbackOp, n)[1..] == Repeat(RollbackOp, n - 1);
      assert [] + [PhysicalRollback] == [PhysicalRollback];
    } else {
      assert Repeat(RollbackOp, 1)[1..] == [];
      assert [PhysicalRollback] + [] == [PhysicalRollback];
    }
  }

  /** `begin; begin; rollBack; commit` fails on the final commit. */
  lemma InnerRollbackThenCommitFails()
    ensures Run(Flow(true, Idle), [BeginOp, BeginOp, RollbackOp, CommitOp], Healthy)
         == Err(Failed(RolledBackIncomplete, Flow(true, TxState(1, true)), [PhysicalBegin]))
  {
    var ops := [BeginOp, BeginOp, RollbackOp, CommitOp];
    assert ops[1..] == [BeginOp, RollbackOp, CommitOp];
    assert ops[1..][1..] == [RollbackOp, CommitOp];
    assert ops[1..][1..][1..] == [CommitOp];
    assert [PhysicalBegin] + ([] + ([] + [])) == [PhysicalBegin];
  }

  // ---------------------------------------------------------------------------
  // Per-flow storage
  // ---------------------------------------------------------------------------

  /** Which stored state a call uses: its own flow's, or the one shared state when fibre mode is off. */
  datatype Slot = FlowSlot(id: nat) | SharedSlot

  function SlotOf(fiberMode: bool, flow: nat): Slot {
    if fiberMode then FlowSlot(flow) else SharedSlot
  }

  /** The fibre-local storage: a slot nobody has touched yet holds the initial state. */
  type Contexts = map<Slot, Flow>

  function Current(c: Contexts, s: Slot): Flow {
    if s in c then c[s] else Fresh
  }

  /** What one call leaves in the storage: the new contexts, the calls issued, and its error, if any. */
  datatype Performed = Performed(contexts: Contexts, calls: seq<Physical>, error: Option<TxError>)

  /**
   * Performs `op` for `flow`, reading and writing only that flow's slot. A
   * call that raises still stores the flow state it reached, so an implicit
   * connect that succeeded before the error stays bound.
   */
  function Perform(c: Contexts, fiberMode: bool, flow: nat, op: Op, env: Env): (r: Performed)
    ensures forall s :: s != SlotOf(fiberMode, flow) ==> Current(r.contexts, s) == Current(c, s)
    ensures r.error.None? <==> Apply(Current(c, SlotOf(fiberMode, flow)), op, env).Ok?
    ensures r.error.None? ==> Current(r.contexts, SlotOf(fiberMode, flow)) ==
                              Apply(Current(c, SlotOf(fiberMode, flow)), op, env).value.flow
    ensures r.error.Some? ==> var failed := Apply(Current(c, SlotOf(fiberMode, flow)), op, env).error;
      Current(r.contexts, SlotOf(fiberMode, flow)) == failed.flow && r.error == Some(failed.error)
  {
    var slot := SlotOf(fiberMode, flow);
    match Apply(Current(c, slot), op, env)
    case Ok(s) => Performed(c[slot := s.flow], s.calls, None)
    case Err(e) => Performed(c[slot := e.flow], e.calls, Some(e.error))
  }

  /**
   * A `beginTransaction` whose implicit connect succeeds but whose BEGIN
   * raises leaves the slot bound: the next call does not connect again.
   */
  lemma ConnectSurvivesFailedBegin(c: Contexts, fiberMode: bool, flow: nat, m: string)
    requires !Current(c, SlotOf(fiberMode, flow)).connected
    requires Current(c, SlotOf(fiberMode, flow)).tx == Idle
    ensures var first := Perform(c, fiberMode, flow, BeginOp, Env(None, Some(m)));
      && first.error == Some(PhysicalFailed(m))
      && first.calls == [PhysicalConnect, PhysicalBegin]
      && Perform(first.contexts, fiberMode, flow, BeginOp, Healthy)
           == Performed(first.contexts[SlotOf(fiberMode, flow) := Flow(true, TxState(1, false))], [PhysicalBegin], None)
  {
  }
}
