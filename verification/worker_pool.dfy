/**
 * The PDO worker pool's bookkeeping: how many borrowers each worker serves,
 * which worker `selectWorker` hands out, and what releasing a borrowed
 * worker does. Workers are numbered; whether a worker is still running and
 * which worker the underlying pool returns are inputs.
 */
module WorkerPool {
  import opened Wrappers

  const DefaultWorkerLimit := 32

  /** A tracked worker and the number of borrowers it serves. */
  datatype Slot = Slot(worker: nat, count: int)

  /** The worker storage, in attach order, and the worker limit. */
  datatype Workers = Workers(limit: int, slots: seq<Slot>)

  const Start := Workers(DefaultWorkerLimit, [])

  predicate Tracked(slots: seq<Slot>, w: nat) {
    exists i :: 0 <= i < |slots| && slots[i].worker == w
  }

  /** The position of worker `w`, if tracked. */
  function Find(slots: seq<Slot>, w: nat): (r: Option<nat>)
    ensures r.Some? <==> Tracked(slots, w)
    ensures r.Some? ==> r.value < |slots| && slots[r.value].worker == w
  {
    if |slots| == 0 then None
    else if slots[|slots| - 1].worker == w then Some(|slots| - 1)
    else
      var r := Find(slots[..|slots| - 1], w);
      assert Tracked(slots, w) ==> Tracked(slots[..|slots| - 1], w) by {
        if Tracked(slots, w) {
          var i :| 0 <= i < |slots| && slots[i].worker == w;
          assert slots[..|slots| - 1][i].worker == w;
        }
      }
      if r.Some? then Some(r.value) else None
  }

  function Capacity(ws: Workers): nat {
    if ws.limit > 0 then ws.limit else 0
  }

  /** Each worker is tracked once, with at least one borrower, and never more workers than the limit. */
  ghost predicate Valid(ws: Workers) {
    && |ws.slots| <= Capacity(ws)
    && (forall i, j :: 0 <= i < j < |ws.slots| ==> ws.slots[i].worker != ws.slots[j].worker)
    && (forall i :: 0 <= i < |ws.slots| ==> ws.slots[i].count >= 1)
  }

  /** The count of worker `w`, zero when untracked. */
  function Load(slots: seq<Slot>, w: nat): int {
    var i := Find(slots, w);
    if i.Some? then slots[i.value].count else 0
  }

  /** Drops position `i`, keeping the attach order of the others. */
  function Detach(slots: seq<Slot>, i: nat): (r: seq<Slot>)
    requires i < |slots|
    ensures |r| == |slots| - 1
    ensures forall j :: 0 <= j < |r| ==> r[j] == (if j < i then slots[j] else slots[j + 1])
  {
    slots[..i] + slots[i + 1..]
  }

  // ---------------------------------------------------------------------------
  // Least-loaded choice
  // ---------------------------------------------------------------------------

  /**
   * The worker the `foreach` settles on: a minimal count, and among equal
   * counts the one visited last (the comparison is `<=`).
   */
  function LeastLoaded(slots: seq<Slot>): (i: nat)
    requires |slots| > 0
    ensures i < |slots|
    ensures forall j :: 0 <= j < |slots| ==> slots[i].count <= slots[j].count
    ensures forall j :: i < j < |slots| ==> slots[i].count < slots[j].count
    decreases |slots|
  {
    if |slots| == 1 then 0
    else
      var init := slots[..|slots| - 1];
      var k := LeastLoaded(init);
      assert forall j :: 0 <= j < |init| ==> init[j] == slots[j];
      if slots[|slots| - 1].count <= slots[k].count then |slots| - 1 else k
  }

  /** The `foreach` over the storage with a running minimum. */
  method PickLeastLoaded(slots: seq<Slot>) returns (chosen: nat)
    requires |slots| > 0
    ensures chosen == LeastLoaded(slots)
  {
    chosen := 0;
    var best := slots[0].count;
    var n := 1;
    while n < |slots|
      invariant 1 <= n <= |slots|
      invariant chosen == LeastLoaded(slots[..n])
      invariant best == slots[chosen].count
    {
      assert slots[..n + 1][..n] == slots[..n];
      if slots[n].count <= best {
        chosen := n;
        best := slots[n].count;
      }
      n := n + 1;
    }
    assert slots[..n] == slots;
  }

  // ---------------------------------------------------------------------------
  // selectWorker
  // ---------------------------------------------------------------------------

  /** `selectWorker()` at the limit with nothing tracked: no worker variable is ever set. */
  const NoWorkerMessage := "Call to a member function isRunning() on null"

  /**
   * `selectWorker()`. Below the limit the underlying pool's worker is taken
   * (counted once more if already tracked, else attached with count 1). At
   * the limit the least-loaded worker is chosen; if it stopped running it is
   * detached and the selection starts over.
   */
  function Select(ws: Workers, fromPool: nat, running: set<nat>): (r: Result<(Workers, nat), string>)
    ensures r.Ok? ==> r.value.0.limit == ws.limit
    ensures Valid(ws) ==> (r.Ok? <==> ws.limit > 0)
    ensures Valid(ws) && r.Ok? ==> Valid(r.value.0)
    ensures r.Ok? ==> Tracked(r.value.0.slots, r.value.1)
    ensures |ws.slots| < ws.limit ==> r.Ok? && r.value.1 == fromPool
    ensures |ws.slots| < ws.limit ==> Load(r.value.0.slots, fromPool) == Load(ws.slots, fromPool) + 1
    decreases |ws.slots|
  {
    if |ws.slots| < ws.limit then
      var i := Find(ws.slots, fromPool);
      if i.Some? then
        BumpFacts(ws, i.value);
        Ok((Bump(ws, i.value), fromPool))
      else
        AttachFacts(ws, fromPool);
        Ok((ws.(slots := ws.slots + [Slot(fromPool, 1)]), fromPool))
    else if |ws.slots| == 0 then
      Err(NoWorkerMessage)
    else
      var k := LeastLoaded(ws.slots);
      var w := ws.slots[k].worker;
      if w !in running then
        DetachFacts(ws, k);
        Select(ws.(slots := Detach(ws.slots, k)), fromPool, running)
      else
        BumpFacts(ws, k);
        Ok((Bump(ws, k), w))
  }

  /** One more borrower for the worker at position `k`. */
  function Bump(ws: Workers, k: nat): Workers
    requires k < |ws.slots|
  {
    ws.(slots := ws.slots[k := ws.slots[k].(count := ws.slots[k].count + 1)])
  }

  lemma BumpFacts(ws: Workers, k: nat)
    requires k < |ws.slots|
    ensures Valid(ws) ==> Valid(Bump(ws, k))
    ensures Tracked(Bump(ws, k).slots, ws.slots[k].worker)
    ensures Find(Bump(ws, k).slots, ws.slots[k].worker) == Find(ws.slots, ws.slots[k].worker)
    ensures Valid(ws) ==> Find(ws.slots, ws.slots[k].worker) == Some(k)
  {
    var slots := Bump(ws, k).slots;
    assert slots[k].worker == ws.slots[k].worker;
    FindSame(ws.slots, slots, ws.slots[k].worker);
  }

  lemma AttachFacts(ws: Workers, w: nat)
    requires !Tracked(ws.slots, w)
    ensures var slots := ws.slots + [Slot(w, 1)];
      && Find(slots, w) == Some(|ws.slots|)
      && (Valid(ws) && |ws.slots| < ws.limit ==> Valid(ws.(slots := slots)))
  {
    var slots := ws.slots + [Slot(w, 1)];
    assert slots[..|slots| - 1] == ws.slots;
  }

  lemma DetachFacts(ws: Workers, k: nat)
    requires k < |ws.slots|
    ensures Valid(ws) ==> Valid(ws.(slots := Detach(ws.slots, k)))
  {
  }

  /** Changing counts in place does not move any worker. */
  lemma FindSame(a: seq<Slot>, b: seq<Slot>, w: nat)
    requires |a| == |b| && forall j :: 0 <= j < |a| ==> a[j].worker == b[j].worker
    ensures Find(a, w) == Find(b, w)
    decreases |a|
  {
    if |a| > 0 {
      FindSame(a[..|a| - 1], b[..|b| - 1], w);
    }
  }

  /**
   * At the limit, with the least-loaded worker running, that worker is
   * chosen: no tracked worker serves fewer borrowers, no later one as few,
   * and its count grows by one.
   */
  lemma SelectAtLimit(ws: Workers, fromPool: nat, running: set<nat>)
    requires Valid(ws) && |ws.slots| >= ws.limit && |ws.slots| > 0
    requires ws.slots[LeastLoaded(ws.slots)].worker in running
    ensures var k := LeastLoaded(ws.slots);
      var r := Select(ws, fromPool, running);
      && r == Ok((ws.(slots := ws.slots[k := ws.slots[k].(count := ws.slots[k].count + 1)]), ws.slots[k].worker))
      && (forall j :: 0 <= j < |ws.slots| ==> ws.slots[k].count <= ws.slots[j].count)
      && (forall j :: k < j < |ws.slots| ==> ws.slots[k].count < ws.slots[j].count)
  {
  }

  // ---------------------------------------------------------------------------
  // Release
  // ---------------------------------------------------------------------------

  /**
   * The release closure of a borrowed worker: an untracked worker is left
   * alone; otherwise its count drops by one, and it is detached when the
   * count reaches zero or it is no longer running.
   */
  function Release(ws: Workers, w: nat, running: set<nat>): (r: Workers)
    ensures !Tracked(ws.slots, w) ==> r == ws
    ensures r.limit == ws.limit && |r.slots| <= |ws.slots|
    ensures Valid(ws) ==> Valid(r)
    ensures Valid(ws) && Tracked(ws.slots, w) && w in running && Load(ws.slots, w) > 1 ==>
      Load(r.slots, w) == Load(ws.slots, w) - 1 && |r.slots| == |ws.slots|
    ensures Valid(ws) && Tracked(ws.slots, w) && (w !in running || Load(ws.slots, w) == 1) ==>
      !Tracked(r.slots, w) && |r.slots| == |ws.slots| - 1
  {
    var i := Find(ws.slots, w);
    if i.None? then ws
    else
      var k := i.value;
      var c := ws.slots[k].count - 1;
      if c == 0 || w !in running then
        var slots := Detach(ws.slots, k);
        assert Valid(ws) ==> forall j :: 0 <= j < |slots| ==> slots[j].worker != w;
        ws.(slots := slots)
      else
        var slots := ws.slots[k := ws.slots[k].(count := c)];
        FindSame(ws.slots, slots, w);
        ws.(slots := slots)
  }

  /** Selecting and then releasing a freshly attached worker leaves the storage as it was. */
  lemma SelectReleaseFresh(ws: Workers, fromPool: nat, running: set<nat>)
    requires Valid(ws) && |ws.slots| < ws.limit && !Tracked(ws.slots, fromPool)
    ensures Release(Select(ws, fromPool, running).value.0, fromPool, running) == ws
  {
    var slots := ws.slots + [Slot(fromPool, 1)];
    assert Select(ws, fromPool, running).value.0 == ws.(slots := slots);
    assert Find(slots, fromPool) == Some(|ws.slots|);
    assert Detach(slots, |ws.slots|) == ws.slots;
  }
}
