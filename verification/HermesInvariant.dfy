/**
 What every region of the Hermes service keeps.

 The invariant is a conjunction of small facts, each about the few components it
 mentions, so that a region only has to account for what it changes.
 */
module HermesInvariant {
  import opened Basics
  import opened GenerationPool
  import opened HermesService

  /** Executions that have retained generation `p` and not yet dropped it. */
  ghost function Pinned(execs: seq<Exec>, p: nat): set<nat>
  {
    set e: nat | e < |execs| && execs[e].pc != Done && execs[e].pool == p
  }

  predicate Listed(pc: Pc)
  {
    pc.Registered? || pc.Leased? || pc.Published? || pc.Dispatched? || pc.Popping?
  }

  ghost predicate ExecsIndexed(pools: seq<Pool>, execs: seq<Exec>)
  {
    forall e :: 0 <= e < |execs| ==> execs[e].pool < |pools|
  }

  /** What the program counter says about the local variables of `execute`. */
  ghost predicate Shape(x: Exec)
  {
    && (x.pc.Leased? || x.pc.Published? || x.pc.Dispatched? ==> x.slot.Some?)
    && (x.pc.Retained? || x.pc.Registered? || x.pc.Dropping? || x.pc.Done? ==> x.slot.None?)
    && (x.slotVisible ==> !x.pc.Retained? && !x.pc.Registered? && !x.pc.Leased?)
    && (x.slotVisible && x.pc.Popping? ==> x.slot.Some?)
    && (x.pc.Published? || x.pc.Dispatched? ==> x.slotVisible)
    && (x.slot.Some? ==> x.leasedWorker.Some?)
    && (x.pc.Retained? || x.pc.Registered? ==> x.leasedWorker.None?)
    && (x.dispatched ==> x.slotVisible && !x.pc.Published?)
    && ((Listed(x.pc) && !x.pc.Popping?) || x.pc.Retained? ==> x.outcome.Undecided?)
    && !Impossible(x.outcome)
  }

  ghost predicate Shaped(execs: seq<Exec>)
  {
    forall e :: 0 <= e < |execs| ==> Shape(execs[e])
  }

  /** The active map and the executions that believe to be in it agree, execution by execution. */
  ghost predicate Owned(execs: seq<Exec>, active: map<RequestId, nat>)
  {
    && (forall rid :: rid in active ==>
          active[rid] < |execs| && execs[active[rid]].req.id == rid && Listed(execs[active[rid]].pc))
    && (forall e :: 0 <= e < |execs| && Listed(execs[e].pc) ==>
          execs[e].req.id in active && active[execs[e].req.id] == e)
  }

  /** Execution `x` holds the slot it remembers, with the worker it leased. */
  ghost predicate HoldsIts(pools: seq<Pool>, x: Exec)
  {
    x.slot.Some? ==>
      && x.leasedWorker.Some?
      && x.pool < |pools|
      && x.slot.value < |pools[x.pool].slots|
      && pools[x.pool].slots[x.slot.value] == Slot(x.leasedWorker.value, Some(x.req.id))
  }

  ghost predicate Held(pools: seq<Pool>, execs: seq<Exec>)
  {
    forall e :: 0 <= e < |execs| ==> HoldsIts(pools, execs[e])
  }

  /** No two executions hold the same slot. */
  ghost predicate Exclusive(execs: seq<Exec>)
  {
    forall d, e ::
      0 <= d < |execs| && 0 <= e < |execs| && d != e && execs[d].slot.Some? && execs[d].pool == execs[e].pool ==>
      execs[d].slot != execs[e].slot
  }

  ghost predicate HolderOf(execs: seq<Exec>, p: nat, i: nat, e: nat)
  {
    e < |execs| && execs[e].pool == p && execs[e].slot == Some(i)
  }

  ghost predicate LeasedAt(pools: seq<Pool>, p: nat, i: nat)
  {
    p < |pools| && i < |pools[p].slots| && pools[p].slots[i].request.Some?
  }

  /** No slot is leased without an execution that holds it. */
  ghost predicate Accounted(pools: seq<Pool>, execs: seq<Exec>)
  {
    forall p: nat, i: nat :: LeasedAt(pools, p, i) ==> exists e: nat :: HolderOf(execs, p, i, e)
  }

  ghost predicate Counted(pools: seq<Pool>, execs: seq<Exec>)
  {
    forall p :: 0 <= p < |pools| ==> pools[p].references == |Pinned(execs, p)|
  }

  ghost predicate LeasesCounted(pools: seq<Pool>)
  {
    forall p :: 0 <= p < |pools| ==> pools[p].active == |LeasedSlots(pools[p].slots)|
  }

  /** Drain-then-close for one pool. */
  ghost predicate Lifecycle(p: Pool)
  {
    && (p.closed ==> p.references == 0 && p.active == 0)
    && !Closeable(p)
    && p.handoffs == (if p.closed then 1 else 0)
    && (p.published && p.closed ==> p.draining)
  }

  ghost predicate Lifecycles(pools: seq<Pool>)
  {
    forall p :: 0 <= p < |pools| ==> Lifecycle(pools[p])
  }

  /** Generations are published in increasing order and the current one is the newest. */
  ghost predicate Ordered(pools: seq<Pool>, current: nat)
  {
    && current < |pools|
    && pools[current].published
    && (forall p :: current < p < |pools| ==> !pools[p].published)
    && (forall p, q :: 0 <= p < q < |pools| && pools[p].published && pools[q].published ==>
          pools[p].identity.generation < pools[q].identity.generation)
  }

  ghost predicate PinsPublished(pools: seq<Pool>, execs: seq<Exec>)
  {
    forall e :: 0 <= e < |execs| && !execs[e].pc.Done? ==> execs[e].pool < |pools| && pools[execs[e].pool].published
  }

  ghost predicate Todo(admin: Admin, p: nat)
  {
    admin.Draining? && p in admin.todo
  }

  /** Every generation that is no longer current drains, or is about to be told to. */
  ghost predicate Drained(pools: seq<Pool>, current: nat, ready: bool, admin: Admin)
  {
    && (ready ==> current < |pools| && !pools[current].draining && !Todo(admin, current))
    && (forall p :: 0 <= p < |pools| && pools[p].published && (p != current || !ready) ==>
          pools[p].draining || Todo(admin, p))
    && (admin.Draining? ==> admin.todo != [] && forall p :: p in admin.todo ==> p < |pools| && pools[p].published)
  }

  ghost predicate Pending(admin: Admin, p: nat)
  {
    (admin.Candidate? || admin.Abandoning?) && admin.pool == p
  }

  /** An unpublished generation is the candidate in flight or has been closed. */
  ghost predicate Candidates(pools: seq<Pool>, current: nat, admin: Admin)
  {
    && (admin.Candidate? || admin.Abandoning? ==>
          current < admin.pool < |pools| && !pools[admin.pool].published && !pools[admin.pool].closed)
    && (forall p :: 0 <= p < |pools| && !pools[p].published ==>
      !pools[p].draining && (pools[p].closed || Pending(admin, p)))
  }

  ghost predicate Retired(pools: seq<Pool>, current: nat, retired: seq<nat>)
  {
    forall p :: p in retired ==> p < |pools| && p != current && pools[p].published
  }

  /** Every worker is only found where it was installed, hence in at most one slot. */
  ghost predicate Housed(pools: seq<Pool>, home: map<WorkerRef, Place>)
  {
    forall p, i :: 0 <= p < |pools| && 0 <= i < |pools[p].slots| ==>
      pools[p].slots[i].worker in home && home[pools[p].slots[i].worker] == Place(p, i)
  }

  ghost predicate HomesKnown(workers: seq<Worker>, home: map<WorkerRef, Place>)
  {
    forall w :: w in home ==> w < |workers|
  }

  /** Open generations keep all their workers; closed ones handed all of them over. */
  ghost predicate HandedOverRight(pools: seq<Pool>, workers: seq<Worker>, handed: set<WorkerRef>)
  {
    && (forall w :: w in handed ==> w < |workers|)
    && (forall p, i :: 0 <= p < |pools| && 0 <= i < |pools[p].slots| ==>
          (pools[p].slots[i].worker in handed <==> pools[p].closed))
  }

  ghost predicate Identified(pools: seq<Pool>, workers: seq<Worker>)
  {
    forall p :: 0 <= p < |pools| ==>
      WellIndexed(pools[p].slots, workers) && Distinct(pools[p].slots, workers, pools[p].identity)
  }

  /** The worker behind a held slot serves that request between the two dispatch regions, and nothing otherwise. */
  ghost predicate ServesHolder(workers: seq<Worker>, x: Exec)
  {
    x.slot.Some? && x.leasedWorker.Some? ==>
      && x.leasedWorker.value < |workers|
      && workers[x.leasedWorker.value].serving == if x.pc.Dispatched? then Some(x.req.id) else None
  }

  ghost predicate Serving(workers: seq<Worker>, execs: seq<Exec>)
  {
    forall e :: 0 <= e < |execs| ==> ServesHolder(workers, execs[e])
  }

  ghost predicate FreeIdle(pools: seq<Pool>, workers: seq<Worker>)
  {
    forall p, i :: 0 <= p < |pools| && 0 <= i < |pools[p].slots| && pools[p].slots[i].request.None? ==>
      pools[p].slots[i].worker < |workers| && workers[pools[p].slots[i].worker].serving.None?
  }

  ghost predicate ServedBy(execs: seq<Exec>, w: WorkerRef, e: nat)
  {
    e < |execs| && execs[e].pc.Dispatched? && execs[e].slot.Some? && execs[e].leasedWorker == Some(w)
  }

  /** No worker serves a request that no execution is waiting for. */
  ghost predicate Served(workers: seq<Worker>, execs: seq<Exec>)
  {
    forall w: nat :: w < |workers| && workers[w].serving.Some? ==> exists e: nat :: ServedBy(execs, w, e)
  }

  ghost predicate Terminations(workers: seq<Worker>)
  {
    forall w :: 0 <= w < |workers| && workers[w].terminated.Some? ==> workers[w].closed
  }

  /** What a cancellation's state guarantees about the execution it found. */
  ghost predicate CancelSound(execs: seq<Exec>, workers: seq<Worker>, k: Cancel)
  {
    k.answer.AwaitingWorker? || k.AnsweredTrue() ==>
      && k.target.Some? && k.target.value < |execs|
      && var x := execs[k.target.value];
      && x.req.id == k.rid
      && (k.answer.CancelledEarly? ==> x.cancelRequested && !x.dispatched && !x.pc.Published? && !x.pc.Dispatched?)
      && (!k.answer.CancelledEarly? ==> x.leasedWorker == Some(k.answer.worker) && k.answer.worker < |workers|)
      && (k.answer.WorkerAnswered? ==> workers[k.answer.worker].terminated == Some(k.rid))
  }

  ghost predicate CancelsSound(execs: seq<Exec>, workers: seq<Worker>, cancels: seq<Cancel>)
  {
    forall c :: 0 <= c < |cancels| ==> CancelSound(execs, workers, cancels[c])
  }

  /** The generation an execution is pinned to, and any result it returned, is the one its caller expected. */
  ghost predicate ResultSound(x: Exec, identity: Identity)
  {
    && (!x.pc.Done? || x.outcome.Returned? ==>
          x.req.expectedGeneration == identity.generation && x.req.expectedHash == identity.schemaHash)
    && (x.outcome.Returned? ==>
          && x.outcome.identity == identity
          && (x.outcome.response.ok ==>
                && x.outcome.response.operation == x.req.operation
                && x.outcome.response.generation == x.req.expectedGeneration
                && x.outcome.response.schemaHash == x.req.expectedHash))
  }

  ghost predicate ResultsSound(pools: seq<Pool>, execs: seq<Exec>)
  {
    forall e :: 0 <= e < |execs| ==> execs[e].pool < |pools| && ResultSound(execs[e], pools[execs[e].pool].identity)
  }

  /** What executions and cancellations know. */
  ghost predicate Bookkeeping(s: Service)
  {
    && ExecsIndexed(s.pools, s.execs)
    && Shaped(s.execs)
    && Owned(s.execs, s.active)
    && PinsPublished(s.pools, s.execs)
    && CancelsSound(s.execs, s.workers, s.cancels)
    && ResultsSound(s.pools, s.execs)
  }

  /** Who holds which slot, and what the worker behind it is doing. */
  ghost predicate Leasing(s: Service)
  {
    && Held(s.pools, s.execs)
    && Exclusive(s.execs)
    && Accounted(s.pools, s.execs)
    && LeasesCounted(s.pools)
    && Housed(s.pools, s.home)
    && HomesKnown(s.workers, s.home)
    && Identified(s.pools, s.workers)
    && Serving(s.workers, s.execs)
    && Served(s.workers, s.execs)
    && FreeIdle(s.pools, s.workers)
    && Terminations(s.workers)
  }

  /** Which generations are open, and who still keeps them open. */
  ghost predicate Lifetimes(s: Service)
  {
    && Counted(s.pools, s.execs)
    && Lifecycles(s.pools)
    && Ordered(s.pools, s.current)
    && Drained(s.pools, s.current, s.ready, s.admin)
    && Candidates(s.pools, s.current, s.admin)
    && Retired(s.pools, s.current, s.retired)
    && HandedOverRight(s.pools, s.workers, s.handed)
  }

  ghost predicate Inv(s: Service)
  {
    Bookkeeping(s) && Leasing(s) && Lifetimes(s)
  }

  lemma InitialLeasing(s: Service)
    requires Initial(s)
    ensures Leasing(s)
  {
    assert LeasedSlots(s.pools[0].slots) == {};
  }

  lemma InitialLifetimes(s: Service)
    requires Initial(s)
    ensures Lifetimes(s)
  {
    assert Pinned(s.execs, 0) == {};
  }

  lemma InitialInv(s: Service)
    requires Initial(s)
    ensures Inv(s)
  {
    InitialLeasing(s);
    InitialLifetimes(s);
  }

  // ------------------------------------------------------------ counting executions

  lemma PinnedMore(a: seq<Exec>, x: Exec, p: nat)
    ensures |Pinned(a + [x], p)| == |Pinned(a, p)| + if !x.pc.Done? && x.pool == p then 1 else 0
  {
    assert |a| !in Pinned(a, p);
    assert Pinned(a + [x], p) == if !x.pc.Done? && x.pool == p then Pinned(a, p) + {|a|} else Pinned(a, p);
  }

  lemma PinnedMoved(a: seq<Exec>, e: nat, x: Exec, p: nat)
    requires e < |a| && !a[e].pc.Done? && x.pool == a[e].pool
    ensures |Pinned(a[e := x], p)| == |Pinned(a, p)| - if x.pc.Done? && x.pool == p then 1 else 0
  {
    assert x.pool == p ==> e in Pinned(a, p);
    assert Pinned(a[e := x], p) == if x.pc.Done? && x.pool == p then Pinned(a, p) - {e} else Pinned(a, p);
  }

  lemma PinnedHere(pools: seq<Pool>, execs: seq<Exec>, e: nat)
    requires Counted(pools, execs) && e < |execs| && execs[e].pool < |pools| && !execs[e].pc.Done?
    ensures pools[execs[e].pool].references > 0
  {
    assert e in Pinned(execs, execs[e].pool);
  }

  // ------------------------------------------------------------ frames

  /** Slots only became free, executions kept theirs. */
  lemma HoldersStay(pools: seq<Pool>, pools': seq<Pool>, execs: seq<Exec>, execs': seq<Exec>)
    requires Accounted(pools, execs)
    requires |execs| <= |execs'|
    requires forall e :: 0 <= e < |execs| ==> execs'[e].pool == execs[e].pool && execs'[e].slot == execs[e].slot
    requires forall p: nat, i: nat :: LeasedAt(pools', p, i) ==> LeasedAt(pools, p, i)
    ensures Accounted(pools', execs')
  {
    forall p: nat, i: nat | LeasedAt(pools', p, i)
      ensures exists e: nat :: HolderOf(execs', p, i, e)
    {
      assert LeasedAt(pools, p, i);
      var e: nat :| HolderOf(execs, p, i, e);
      assert HolderOf(execs', p, i, e);
    }
  }

  /** Workers only stopped serving, waiting executions kept waiting. */
  lemma ServersStay(v: seq<Worker>, w: seq<Worker>, execs: seq<Exec>, execs': seq<Exec>)
    requires Served(v, execs)
    requires |execs| <= |execs'|
    requires forall e :: 0 <= e < |execs| && execs[e].pc.Dispatched? && execs[e].slot.Some? ==>
               execs'[e].pc.Dispatched? && execs'[e].slot.Some? && execs'[e].leasedWorker == execs[e].leasedWorker
    requires forall i :: 0 <= i < |w| && w[i].serving.Some? ==> i < |v| && v[i].serving.Some?
    ensures Served(w, execs')
  {
    forall i: nat | i < |w| && w[i].serving.Some?
      ensures exists e: nat :: ServedBy(execs', i, e)
    {
      var e: nat :| ServedBy(execs, i, e);
      assert ServedBy(execs', i, e);
    }
  }
}
