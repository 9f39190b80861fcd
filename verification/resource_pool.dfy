/**
 * The bounded resource pool the driver keeps three copies of: the mysqli
 * connection pool, the mysqli link pool and the worker-side PDO pool. All
 * three share one algorithm, modelled here once over plain sequences.
 *
 * Resources and waiters are numbered. A waiter is the deferred future a
 * `pull` parks on; its settlement (the resource it received, or the error it
 * was failed with) is recorded in `outcomes`. A resource creation runs
 * asynchronously in the program; here it is an entry of `creations` (holding
 * the waiter whose `pull` started it) until the environment reports that it
 * succeeded or failed.
 */
module ResourcePool {
  import opened Wrappers

  /** Which of the three copies: they differ only in their messages. */
  datatype Flavour = MysqliConnections | MysqliLinks | WorkerPdos

  /** The error `pull` raises once the pool is cancelled. */
  function ShutDownMessage(f: Flavour): string {
    if f == WorkerPdos then "The PdoPool was shut down" else "The pool was shut down"
  }

  /** The error a creation raises when the pool's cancellation interrupts the factory. */
  function CancelledMessage(f: Flavour): string {
    if f == WorkerPdos then "The PdoPool shut down before the task could be executed"
    else "The pool shut down before the task could be executed"
  }

  /** The default limit of every copy. */
  const DefaultLimit := 32

  /** How a waiter was settled. */
  datatype Outcome = Delivered(resource: nat) | Failed(message: string)

  datatype Pool = Pool(
    flavour: Flavour,
    limit: int,
    idle: seq<nat>,             // idle queue, front first
    waiting: seq<nat>,          // parked waiters, oldest first
    creations: seq<nat>,        // creations in flight, each with the waiter that started it
    storage: set<nat>,          // every resource the pool created
    lent: multiset<nat>,        // resources handed out and not yet released
    cancelled: bool,
    outcomes: map<nat, Outcome>,
    nextWaiter: nat,
    nextResource: nat)

  function Empty(flavour: Flavour, limit: int): (p: Pool)
    ensures Valid(p) && Count(p) == 0 && !p.cancelled
  {
    Pool(flavour, limit, [], [], [], {}, multiset{}, false, map[], 0, 0)
  }

  /** `getConnectionsCount()` / `getLinksCount()` / `getCount()`: created plus pending. */
  function Count(p: Pool): nat {
    |p.storage| + |p.creations|
  }

  /** The limit as a bound on the count: a limit below 1 admits no resource at all. */
  function Capacity(p: Pool): nat {
    if p.limit > 0 then p.limit else 0
  }

  /** `isIdle()`: an idle resource exists or fewer resources than the limit were created. */
  function IsIdle(p: Pool): bool {
    |p.idle| > 0 || |p.storage| < p.limit
  }

  predicate Increasing(s: seq<nat>) {
    forall i, j :: 0 <= i < j < |s| ==> s[i] < s[j]
  }

  /** The invariant every reachable pool keeps. */
  ghost predicate Valid(p: Pool) {
    && Count(p) <= Capacity(p)
    && QueueOk(p)
    && Numbered(p)
    && Balanced(p)
  }

  /** Waiters queue in the order they arrived, and none in the queue is settled. */
  ghost predicate QueueOk(p: Pool) {
    && Increasing(p.waiting)
    && (forall i :: 0 <= i < |p.waiting| ==> p.waiting[i] < p.nextWaiter && p.waiting[i] !in p.outcomes)
  }

  /** Waiter and resource numbers are handed out fresh. */
  ghost predicate Numbered(p: Pool) {
    && (forall w :: w in p.outcomes ==> w < p.nextWaiter)
    && (forall i :: 0 <= i < |p.creations| ==> p.creations[i] < p.nextWaiter)
    && (forall x :: x in p.storage ==> x < p.nextResource)
  }

  /** Every created resource is either idle or lent, exactly once. */
  ghost predicate Balanced(p: Pool) {
    multiset(p.idle) + p.lent == multiset(p.storage)
  }

  // ---------------------------------------------------------------------------
  // pull
  // ---------------------------------------------------------------------------

  /** What `pull` does right away: hand out an idle resource, or park a waiter. */
  datatype Acquire = Took(resource: nat) | Parked(waiter: nat, created: bool)

  function Pull(p: Pool): (r: Result<(Pool, Acquire), string>)
    ensures p.cancelled <==> r.Err?
    ensures p.cancelled ==> r.error == ShutDownMessage(p.flavour)
    ensures r.Ok? && |p.idle| > 0 ==>
      r.value.1 == Took(p.idle[0]) && r.value.0.idle == p.idle[1..] && r.value.0.creations == p.creations
    ensures r.Ok? && |p.idle| == 0 ==>
      && r.value.1 == Parked(p.nextWaiter, Count(p) < p.limit)
      && r.value.0.waiting == p.waiting + [p.nextWaiter]
      && r.value.0.creations == p.creations + (if Count(p) < p.limit then [p.nextWaiter] else [])
    ensures r.Ok? ==> r.value.0.storage == p.storage && r.value.0.outcomes == p.outcomes
    ensures r.Ok? && Valid(p) ==> Valid(r.value.0)
  {
    if p.cancelled then Err(ShutDownMessage(p.flavour))
    else if |p.idle| > 0 then
      var x := p.idle[0];
      assert p.idle == [x] + p.idle[1..];
      Ok((p.(idle := p.idle[1..], lent := p.lent + multiset{x}), Took(x)))
    else
      var w := p.nextWaiter;
      var create := Count(p) < p.limit;
      var q := p.(waiting := p.waiting + [w],
                  creations := p.creations + (if create then [w] else []),
                  nextWaiter := w + 1);
      Ok((q, Parked(w, create)))
  }

  // ---------------------------------------------------------------------------
  // push
  // ---------------------------------------------------------------------------

  /**
   * The `push` closure with resource `x` in hand: the oldest waiter gets it,
   * or it joins the idle queue when nobody waits. Completing a waiter that
   * was already settled throws (see `FrontSettled`); the waiter is gone from
   * the queue and `x` reaches nobody.
   */
  function Deliver(p: Pool, x: nat): (r: Pool)
    ensures |p.waiting| == 0 ==> r.idle == p.idle + [x] && r.waiting == [] && r.outcomes == p.outcomes
    ensures |p.waiting| > 0 ==> r.idle == p.idle && r.waiting == p.waiting[1..]
    ensures |p.waiting| > 0 && p.waiting[0] !in p.outcomes ==>
      r.outcomes == p.outcomes[p.waiting[0] := Delivered(x)] && r.lent == p.lent + multiset{x}
    ensures r.storage == p.storage && r.creations == p.creations && r.cancelled == p.cancelled
    ensures r.nextWaiter == p.nextWaiter && r.nextResource == p.nextResource
    ensures QueueOk(p) ==> QueueOk(r)
  {
    if |p.waiting| == 0 then p.(idle := p.idle + [x])
    else
      var w := p.waiting[0];
      if w in p.outcomes then p.(waiting := p.waiting[1..])
      else p.(waiting := p.waiting[1..], lent := p.lent + multiset{x}, outcomes := p.outcomes[w := Delivered(x)])
  }

  /**
   * Whether a push would dequeue a waiter that is already settled, on which
   * `complete()` throws amp's `NoLongerPendingMessage` error.
   */
  predicate FrontSettled(p: Pool) {
    |p.waiting| > 0 && p.waiting[0] in p.outcomes
  }

  /** The error amp's deferred future raises when it is settled a second time. */
  const NoLongerPendingMessage := "Operation is no longer pending"

  /** The oldest waiter is the one with the smallest number. */
  lemma DeliverServesOldest(p: Pool, x: nat)
    requires QueueOk(p) && |p.waiting| > 0
    ensures Deliver(p, x).outcomes[p.waiting[0]] == Delivered(x)
    ensures forall i :: 0 <= i < |p.waiting| ==> p.waiting[0] <= p.waiting[i]
  {
  }

  /**
   * With the queue of a valid pool, a delivered resource always lands: either
   * in the idle queue or with a waiter, and the lent/idle books stay balanced.
   */
  lemma DeliverConserves(p: Pool, x: nat)
    requires QueueOk(p)
    ensures multiset(Deliver(p, x).idle) + Deliver(p, x).lent == multiset(p.idle) + p.lent + multiset{x}
  {
  }

  /** `PooledConnection` / `PooledLink` / `PooledPdo` going away: the resource is pushed back. */
  function Release(p: Pool, x: nat): (r: Pool)
    requires x in p.lent
    ensures Valid(p) ==> Valid(r)
    ensures r.storage == p.storage && Count(r) == Count(p)
    ensures |p.waiting| == 0 ==> r.idle == p.idle + [x]
    ensures Valid(p) && |p.waiting| > 0 ==>
      r.outcomes == p.outcomes[p.waiting[0] := Delivered(x)] && r.waiting == p.waiting[1..]
  {
    var q := p.(lent := p.lent - multiset{x});
    assert Valid(p) ==> Valid(Deliver(q, x)) by {
      if Valid(p) {
        assert q.lent + multiset{x} == p.lent;
        DeliverValid(q, x);
      }
    }
    Deliver(q, x)
  }

  /** Pushing a resource the books are missing restores a valid pool. */
  lemma DeliverValid(q: Pool, x: nat)
    requires Count(q) <= Capacity(q) && QueueOk(q) && Numbered(q)
    requires multiset(q.idle) + q.lent + multiset{x} == multiset(q.storage)
    ensures Valid(Deliver(q, x))
  {
    DeliverConserves(q, x);
  }

  // ---------------------------------------------------------------------------
  // Creations finishing
  // ---------------------------------------------------------------------------

  /** Drops the `k`-th element of a sequence. */
  function RemoveAt(s: seq<nat>, k: nat): (r: seq<nat>)
    requires k < |s|
    ensures |r| == |s| - 1
    ensures forall i :: 0 <= i < |r| ==> r[i] == (if i < k then s[i] else s[i + 1])
  {
    s[..k] + s[k + 1..]
  }

  /**
   * The factory of creation `k` returned resource number `nextResource`: the
   * pending count drops, the resource is attached to storage and pushed.
   */
  function CreationSucceeded(p: Pool, k: nat): (r: Pool)
    requires k < |p.creations|
    ensures Valid(p) ==> Valid(r)
    ensures r.storage == p.storage + {p.nextResource} && r.creations == RemoveAt(p.creations, k)
    ensures |p.waiting| == 0 ==> r.idle == p.idle + [p.nextResource]
    ensures Valid(p) && |p.waiting| > 0 ==>
      r.outcomes == p.outcomes[p.waiting[0] := Delivered(p.nextResource)]
  {
    var x := p.nextResource;
    var q := p.(creations := RemoveAt(p.creations, k), storage := p.storage + {x}, nextResource := x + 1);
    assert Valid(p) ==> Valid(Deliver(q, x)) by {
      if Valid(p) {
        assert x !in p.storage;
        assert multiset(q.storage) == multiset(p.storage) + multiset{x};
        assert Numbered(q) by {
          forall i | 0 <= i < |q.creations| ensures q.creations[i] < q.nextWaiter {
            assert q.creations[i] in p.creations;
          }
        }
        DeliverValid(q, x);
      }
    }
    Deliver(q, x)
  }

  /**
   * A creation succeeding as written: when the push dequeues a
   * settled waiter, `complete()` throws, and the creation's `catch` cancels
   * the pool and fails the waiter that started the creation with that error
   * (unless it is settled already, when the second `error()` throws into
   * nothing). The resource stays created but is neither idle nor lent.
   */
  function CreationSucceededAsWritten(p: Pool, k: nat): (r: Pool)
    requires k < |p.creations|
    ensures r.storage == p.storage + {p.nextResource} && r.creations == RemoveAt(p.creations, k)
    ensures !FrontSettled(p) ==> r == CreationSucceeded(p, k)
    ensures FrontSettled(p) ==>
      && r.cancelled && r.waiting == p.waiting[1..] && r.idle == p.idle && r.lent == p.lent
      && (p.creations[k] !in p.outcomes ==> r.outcomes == p.outcomes[p.creations[k] := Failed(NoLongerPendingMessage)])
      && (p.creations[k] in p.outcomes ==> r.outcomes == p.outcomes)
  {
    var w := p.creations[k];
    var x := p.nextResource;
    var q := p.(creations := RemoveAt(p.creations, k), storage := p.storage + {x}, nextResource := x + 1);
    if FrontSettled(q) then
      var d := q.(waiting := q.waiting[1..], cancelled := true);
      if w in d.outcomes then d else d.(outcomes := d.outcomes[w := Failed(NoLongerPendingMessage)])
    else CreationSucceeded(p, k)
  }

  /**
   * In a valid pool no queued waiter is settled, so the throwing branch
   * never runs: the program's success handling is the one `Step` uses.
   */
  lemma SucceededAsWrittenOnValid(p: Pool, k: nat)
    requires k < |p.creations|
    ensures Valid(p) ==> CreationSucceededAsWritten(p, k) == CreationSucceeded(p, k)
  {
  }

  /** Why a factory did not produce a resource. */
  datatype Failure = Interrupted | Threw(message: string)

  function FailureMessage(f: Flavour, e: Failure): string {
    match e
    case Interrupted => CancelledMessage(f)
    case Threw(m) => m
  }

  /** Drops waiter `w` from a queue. */
  function Without(s: seq<nat>, w: nat): (r: seq<nat>)
    ensures forall v :: v in r <==> v in s && v != w
    ensures Increasing(s) ==> Increasing(r)
    ensures |r| <= |s|
  {
    if |s| == 0 then []
    else if s[0] == w then
      assert Increasing(s) ==> Increasing(s[1..]);
      Without(s[1..], w)
    else
      assert Increasing(s) ==> Increasing(s[1..]);
      var rest := Without(s[1..], w);
      assert Increasing(s) ==> forall v :: v in rest ==> s[0] < v by {
        if Increasing(s) {
          forall v | v in rest ensures s[0] < v {
            var i :| 0 <= i < |s[1..]| && s[1..][i] == v;
            assert s[i + 1] == v;
          }
        }
      }
      var r := [s[0]] + rest;
      assert Increasing(s) ==> Increasing(r) by {
        if Increasing(s) {
          forall i, j | 0 <= i < j < |r| ensures r[i] < r[j] {
            assert r[j] == rest[j - 1];
            if i > 0 { assert r[i] == rest[i - 1]; } else { assert rest[j - 1] in rest; }
          }
        }
      }
      r
  }

  /**
   * Creation `k` failed: the pool is cancelled and the waiter that started it
   * is failed with the error, unless it was already served. The failed waiter
   * also leaves the queue, so that no later push hands a resource to it.
   */
  function CreationFailed(p: Pool, k: nat, e: Failure): (r: Pool)
    requires k < |p.creations|
    ensures Valid(p) ==> Valid(r)
    ensures r.cancelled && r.storage == p.storage && r.creations == RemoveAt(p.creations, k)
    ensures var w := p.creations[k];
      && (w !in p.outcomes ==> r.outcomes == p.outcomes[w := Failed(FailureMessage(p.flavour, e))])
      && (w in p.outcomes ==> r.outcomes == p.outcomes)
      && (forall v :: v in r.waiting <==> v in p.waiting && v != w)
  {
    var w := p.creations[k];
    var q := p.(cancelled := true, creations := RemoveAt(p.creations, k), waiting := Without(p.waiting, w));
    var r := if w in p.outcomes then q else q.(outcomes := p.outcomes[w := Failed(FailureMessage(p.flavour, e))]);
    assert Valid(p) ==> Valid(r) by {
      if Valid(p) {
        forall i | 0 <= i < |r.waiting| ensures r.waiting[i] < r.nextWaiter && r.waiting[i] !in r.outcomes {
          assert r.waiting[i] in p.waiting;
        }
        forall i | 0 <= i < |r.creations| ensures r.creations[i] < r.nextWaiter {
          assert r.creations[i] in p.creations;
        }
      }
    }
    r
  }

  /**
   * The failure handling as written: the waiter is failed but
   * stays queued.
   */
  function CreationFailedAsWritten(p: Pool, k: nat, e: Failure): (r: Pool)
    requires k < |p.creations|
    ensures r.cancelled && r.waiting == p.waiting && r.creations == RemoveAt(p.creations, k)
    ensures p.creations[k] !in p.outcomes ==>
      r.outcomes == p.outcomes[p.creations[k] := Failed(FailureMessage(p.flavour, e))]
  {
    var w := p.creations[k];
    var q := p.(cancelled := true, creations := RemoveAt(p.creations, k));
    if w in p.outcomes then q else q.(outcomes := p.outcomes[w := Failed(FailureMessage(p.flavour, e))])
  }

  /** The pool's destructor: cancel if still running. */
  function Shutdown(p: Pool): (r: Pool)
    ensures r.cancelled && Pull(r).Err?
    ensures Valid(p) ==> Valid(r)
  {
    p.(cancelled := true)
  }

  // ---------------------------------------------------------------------------
  // Properties across steps
  // ---------------------------------------------------------------------------

  /** Every step keeps the resources already created. */
  lemma StorageNeverShrinks(p: Pool, x: nat, k: nat, e: Failure)
    ensures Pull(p).Ok? ==> p.storage <= Pull(p).value.0.storage
    ensures x in p.lent ==> p.storage <= Release(p, x).storage
    ensures k < |p.creations| ==> p.storage <= CreationSucceeded(p, k).storage
    ensures k < |p.creations| ==> p.storage <= CreationFailed(p, k, e).storage
  {
  }

  /**
   * Anything that can happen to a pool; an event that is not enabled changes
   * nothing. `Step` fails a creation with the corrected `CreationFailed`;
   * `StepAsWritten` is the pool as written.
   */
  datatype Event =
    | PullEvent
    | ReleaseEvent(resource: nat)
    | CreationDone(index: nat)
    | CreationError(index: nat, failure: Failure)
    | ShutdownEvent

  function Step(p: Pool, ev: Event): (r: Pool)
    ensures Valid(p) ==> Valid(r)
    ensures p.storage <= r.storage && r.limit == p.limit
  {
    match ev
    case PullEvent => if p.cancelled then p else Pull(p).value.0
    case ReleaseEvent(x) => if x in p.lent then Release(p, x) else p
    case CreationDone(k) => if k < |p.creations| then CreationSucceeded(p, k) else p
    case CreationError(k, e) => if k < |p.creations| then CreationFailed(p, k, e) else p
    case ShutdownEvent => Shutdown(p)
  }

  function Run(p: Pool, evs: seq<Event>): Pool
    decreases |evs|
  {
    if |evs| == 0 then p else Run(Step(p, evs[0]), evs[1..])
  }

  /** The pool as written: a failed waiter stays queued, and a push onto it throws. */
  function StepAsWritten(p: Pool, ev: Event): (r: Pool)
    ensures !ev.CreationError? && !ev.CreationDone? ==> r == Step(p, ev)
    ensures ev.CreationDone? && Valid(p) ==> r == Step(p, ev)
    ensures p.storage <= r.storage && r.limit == p.limit
  {
    match ev
    case CreationDone(k) =>
      if k < |p.creations| then
        SucceededAsWrittenOnValid(p, k);
        CreationSucceededAsWritten(p, k)
      else p
    case CreationError(k, e) => if k < |p.creations| then CreationFailedAsWritten(p, k, e) else p
    case _ => Step(p, ev)
  }

  function RunAsWritten(p: Pool, evs: seq<Event>): Pool
    decreases |evs|
  {
    if |evs| == 0 then p else RunAsWritten(StepAsWritten(p, evs[0]), evs[1..])
  }

  /**
   * Every run keeps the invariant: in particular the created and pending
   * resources never exceed the limit, and every created resource is idle or
   * lent exactly once.
   */
  lemma {:induction false} RunKeepsValid(p: Pool, evs: seq<Event>)
    requires Valid(p)
    ensures Valid(Run(p, evs))
    ensures p.storage <= Run(p, evs).storage && Run(p, evs).limit == p.limit
    decreases |evs|
  {
    if |evs| > 0 {
      RunKeepsValid(Step(p, evs[0]), evs[1..]);
    }
  }

  lemma ReachableWithinLimit(flavour: Flavour, limit: int, evs: seq<Event>)
    ensures Count(Run(Empty(flavour, limit), evs)) <= Capacity(Empty(flavour, limit))
    ensures Balanced(Run(Empty(flavour, limit), evs))
  {
    RunKeepsValid(Empty(flavour, limit), evs);
  }

  /** `pull` starts a creation exactly when no idle resource exists and the count is below the limit. */
  lemma PullCreatesOnlyBelowLimit(p: Pool)
    requires !p.cancelled
    ensures Count(Pull(p).value.0) == Count(p) + (if |p.idle| == 0 && Count(p) < p.limit then 1 else 0)
  {
  }

  /** A pool whose limit is below 1 never creates anything: every `pull` just parks. */
  lemma NonPositiveLimitStarves(p: Pool)
    requires Valid(p) && p.limit <= 0
    ensures Count(p) == 0 && |p.idle| == 0
    ensures !p.cancelled ==> Pull(p).value.1 == Parked(p.nextWaiter, false)
  {
    assert |p.storage| == 0;
    assert multiset(p.idle) == multiset{} by {
      assert multiset(p.idle) <= multiset(p.storage);
    }
  }

  /**
   * `isIdle()` counts neither pending creations nor waiters: with one
   * creation in flight and the limit at 1 it reports idle, yet a `pull` only
   * parks behind the first waiter.
   */
  lemma IsIdleIgnoresPending()
    ensures var p := Pull(Empty(MysqliConnections, 1)).value.0;
      && IsIdle(p) && Pull(p).value.1 == Parked(1, false)
  {
  }

  // Limit 2: two pulls park waiters 0 and 1 and start one creation each; the
  // first creation fails and the second succeeds.
  const FailThenSucceed: seq<Event> := [PullEvent, PullEvent, CreationError(0, Threw("refused")), CreationDone(0)]

  /** The pool after the two pulls, with waiters 0 and 1 parked and a creation for each. */
  const TwoWaiting := Pool(MysqliLinks, 2, [], [0, 1], [0, 1], {}, multiset{}, false, map[], 2, 0)

  lemma TwoParked()
    ensures Run(Empty(MysqliLinks, 2), FailThenSucceed[..2]) == TwoWaiting
    ensures RunAsWritten(Empty(MysqliLinks, 2), FailThenSucceed[..2]) == TwoWaiting
  {
    var evs := FailThenSucceed[..2];
    assert evs == [PullEvent, PullEvent];
    assert evs[1..] == [PullEvent] && evs[1..][1..] == [];
    var p1 := Pull(Empty(MysqliLinks, 2)).value.0;
    assert p1 == Pool(MysqliLinks, 2, [], [0], [0], {}, multiset{}, false, map[], 1, 0);
    assert Step(Empty(MysqliLinks, 2), PullEvent) == p1;
    assert Step(p1, PullEvent) == TwoWaiting;
    assert StepAsWritten(Empty(MysqliLinks, 2), PullEvent) == p1;
    assert StepAsWritten(p1, PullEvent) == TwoWaiting;
    assert Run(p1, evs[1..]) == Run(TwoWaiting, []);
    assert RunAsWritten(p1, evs[1..]) == RunAsWritten(TwoWaiting, []);
  }

  /** Runs compose: the events after a prefix continue from where it stopped. */
  lemma {:induction false} RunSplit(p: Pool, evs: seq<Event>, n: nat)
    requires n <= |evs|
    ensures Run(p, evs) == Run(Run(p, evs[..n]), evs[n..])
    ensures RunAsWritten(p, evs) == RunAsWritten(RunAsWritten(p, evs[..n]), evs[n..])
    decreases n
  {
    if n > 0 {
      assert evs[..n][1..] == evs[1..][..n - 1];
      assert evs[n..] == evs[1..][n - 1..];
      RunSplit(Step(p, evs[0]), evs[1..], n - 1);
      RunSplit(StepAsWritten(p, evs[0]), evs[1..], n - 1);
    }
  }

  /**
   * As written, the failed waiter stays queued, so the second creation's
   * push dequeues it and `complete()` throws; the `catch` then fails waiter
   * 1 as well. The resource is created but neither idle nor lent, and the
   * pool no longer keeps its invariant.
   */
  lemma FailedWaiterSwallowsResource()
    ensures var p := RunAsWritten(Empty(MysqliLinks, 2), FailThenSucceed);
      && p.storage == {0} && p.idle == [] && p.lent == multiset{}
      && p.outcomes == map[0 := Failed("refused"), 1 := Failed(NoLongerPendingMessage)]
      && !Balanced(p) && !Valid(p)
  {
    TwoParked();
    RunSplit(Empty(MysqliLinks, 2), FailThenSucceed, 2);
    SwallowedTail();
    var p3 := CreationFailedAsWritten(TwoWaiting, 0, Threw("refused"));
    assert p3 == TwoWaiting.(cancelled := true, creations := [1], outcomes := map[0 := Failed("refused")]);
    assert FrontSettled(p3);
    var p := CreationSucceededAsWritten(p3, 0);
    assert multiset(p.storage) == multiset{0};
  }

  lemma SwallowedTail()
    ensures CreationFailedAsWritten(TwoWaiting, 0, Threw("refused")).creations == [1]
    ensures RunAsWritten(TwoWaiting, FailThenSucceed[2..])
      == CreationSucceededAsWritten(CreationFailedAsWritten(TwoWaiting, 0, Threw("refused")), 0)
  {
    var tail := FailThenSucceed[2..];
    assert tail == [CreationError(0, Threw("refused")), CreationDone(0)];
    var p3 := CreationFailedAsWritten(TwoWaiting, 0, Threw("refused"));
    SwallowedSteps();
    assert tail[1..][1..] == [];
    assert RunAsWritten(TwoWaiting, tail) == RunAsWritten(p3, tail[1..]);
    assert RunAsWritten(p3, tail[1..]) == RunAsWritten(CreationSucceededAsWritten(p3, 0), []);
  }

  lemma SwallowedSteps()
    ensures CreationFailedAsWritten(TwoWaiting, 0, Threw("refused")).creations == [1]
    ensures StepAsWritten(TwoWaiting, CreationError(0, Threw("refused")))
      == CreationFailedAsWritten(TwoWaiting, 0, Threw("refused"))
    ensures StepAsWritten(CreationFailedAsWritten(TwoWaiting, 0, Threw("refused")), CreationDone(0))
      == CreationSucceededAsWritten(CreationFailedAsWritten(TwoWaiting, 0, Threw("refused")), 0)
  {
  }

  lemma DroppedSteps()
    ensures CreationFailed(TwoWaiting, 0, Threw("refused")).creations == [1]
    ensures Step(TwoWaiting, CreationError(0, Threw("refused"))) == CreationFailed(TwoWaiting, 0, Threw("refused"))
    ensures Step(CreationFailed(TwoWaiting, 0, Threw("refused")), CreationDone(0))
      == CreationSucceeded(CreationFailed(TwoWaiting, 0, Threw("refused")), 0)
  {
  }

  lemma DroppedTail()
    ensures CreationFailed(TwoWaiting, 0, Threw("refused")).creations == [1]
    ensures Run(TwoWaiting, FailThenSucceed[2..])
      == CreationSucceeded(CreationFailed(TwoWaiting, 0, Threw("refused")), 0)
  {
    var tail := FailThenSucceed[2..];
    assert tail == [CreationError(0, Threw("refused")), CreationDone(0)];
    var p3 := CreationFailed(TwoWaiting, 0, Threw("refused"));
    DroppedSteps();
    assert tail[1..][1..] == [];
    assert Run(TwoWaiting, tail) == Run(p3, tail[1..]);
    assert Run(p3, tail[1..]) == Run(CreationSucceeded(p3, 0), []);
  }

  /**
   * With the failed waiter dropped, the same run conserves the resource: it
   * goes to the waiter still waiting, and the pool stays valid.
   */
  lemma FailedWaiterDropped()
    ensures var p := Run(Empty(MysqliLinks, 2), FailThenSucceed);
      && p.outcomes == map[0 := Failed("refused"), 1 := Delivered(0)]
      && Valid(p)
  {
    TwoParked();
    RunSplit(Empty(MysqliLinks, 2), FailThenSucceed, 2);
    RunKeepsValid(Empty(MysqliLinks, 2), FailThenSucceed);
    DroppedTail();
    var p3 := CreationFailed(TwoWaiting, 0, Threw("refused"));
    assert p3.waiting == [1] by {
      assert forall v :: v in p3.waiting <==> v == 1;
      assert Increasing(p3.waiting);
    }
  }
}
