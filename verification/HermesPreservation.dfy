/** Every region of the Hermes service keeps the invariant. */
module HermesPreservation {
  import opened Basics
  import opened GenerationPool
  import opened HermesService
  import opened HermesInvariant

  // ------------------------------------------------------------ bookkeeping

  /** Pools may change, generations may not. */
  ghost predicate SameGenerations(a: seq<Pool>, b: seq<Pool>)
  {
    |a| <= |b| && forall p :: 0 <= p < |a| ==> b[p].identity == a[p].identity && (a[p].published ==> b[p].published)
  }

  ghost predicate KeepsTerminations(a: seq<Worker>, b: seq<Worker>)
  {
    |a| <= |b| && forall w :: 0 <= w < |a| && a[w].terminated.Some? ==> b[w].terminated == a[w].terminated
  }

  /** A cancellation already answered stays answered right. */
  ghost predicate KeepsCancelled(before: Exec, after: Exec)
  {
    && after.req == before.req
    && (before.leasedWorker.Some? ==> after.leasedWorker == before.leasedWorker)
    && (before.cancelRequested && !before.dispatched && !before.pc.Published? && !before.pc.Dispatched? ==>
          after.cancelRequested && !after.dispatched && !after.pc.Published? && !after.pc.Dispatched?)
  }

  lemma CancelsStay(a: seq<Exec>, b: seq<Exec>, v: seq<Worker>, w: seq<Worker>, cancels: seq<Cancel>)
    requires CancelsSound(a, v, cancels) && KeepsTerminations(v, w) && |a| <= |b|
    requires forall e :: 0 <= e < |a| ==> KeepsCancelled(a[e], b[e])
    ensures CancelsSound(b, w, cancels)
  {
    forall c | 0 <= c < |cancels| ensures CancelSound(b, w, cancels[c]) {
      assert CancelSound(a, v, cancels[c]);
    }
  }

  /** One execution moves on, one region's worth. */
  lemma MoveBookkeeping(s: Service, t: Service, e: nat, x: Exec)
    requires Bookkeeping(s) && e < |s.execs| && t.execs == s.execs[e := x] && t.cancels == s.cancels
    requires SameGenerations(s.pools, t.pools) && KeepsTerminations(s.workers, t.workers)
    requires KeepsCancelled(s.execs[e], x) && x.pool == s.execs[e].pool && (s.execs[e].pc.Done? ==> x.pc.Done?)
    requires Shape(x) && ResultSound(x, s.pools[x.pool].identity)
    requires Owned(t.execs, t.active)
    ensures Bookkeeping(t)
  {
    CancelsStay(s.execs, t.execs, s.workers, t.workers, s.cancels);
  }

  lemma MoveOwned(execs: seq<Exec>, active: map<RequestId, nat>, e: nat, x: Exec)
    requires Owned(execs, active) && e < |execs|
    requires x.req == execs[e].req && Listed(x.pc) == Listed(execs[e].pc)
    ensures Owned(execs[e := x], active)
  {
  }

  lemma ListOwned(execs: seq<Exec>, active: map<RequestId, nat>, e: nat, x: Exec)
    requires Owned(execs, active) && e < |execs| && !Listed(execs[e].pc) && Listed(x.pc)
    requires x.req == execs[e].req && x.req.id !in active
    ensures Owned(execs[e := x], active[x.req.id := e])
  {
  }

  lemma UnlistOwned(execs: seq<Exec>, active: map<RequestId, nat>, e: nat, x: Exec)
    requires Owned(execs, active) && e < |execs| && Listed(execs[e].pc) && !Listed(x.pc) && x.req == execs[e].req
    ensures Owned(execs[e := x], active - {x.req.id})
  {
  }

  /** Nothing an execution knows about has changed. */
  lemma SameBookkeeping(s: Service, t: Service)
    requires Bookkeeping(s) && t.execs == s.execs && t.active == s.active && t.cancels == s.cancels
    requires SameGenerations(s.pools, t.pools) && KeepsTerminations(s.workers, t.workers)
    ensures Bookkeeping(t)
  {
    CancelsStay(s.execs, t.execs, s.workers, t.workers, s.cancels);
  }

  // ------------------------------------------------------------ leasing

  ghost predicate SameSlots(a: seq<Pool>, b: seq<Pool>)
  {
    |a| == |b| && forall p :: 0 <= p < |a| ==>
      b[p].slots == a[p].slots && b[p].active == a[p].active && b[p].identity == a[p].identity
  }

  /** Execution `e` keeps its slot and its side of the worker protocol. */
  lemma MoveLeasing(s: Service, t: Service, e: nat, x: Exec)
    requires Leasing(s) && e < |s.execs| && t.execs == s.execs[e := x]
    requires SameSlots(s.pools, t.pools) && t.workers == s.workers && t.home == s.home
    requires x.req == s.execs[e].req && x.pool == s.execs[e].pool && x.slot == s.execs[e].slot
      && x.leasedWorker == s.execs[e].leasedWorker
    requires x.slot.Some? ==> x.pc.Dispatched? == s.execs[e].pc.Dispatched?
    ensures Leasing(t)
  {
    HoldersStay(s.pools, t.pools, s.execs, t.execs);
    ServersStay(s.workers, t.workers, s.execs, t.execs);
    forall d | 0 <= d < |t.execs| ensures HoldsIts(t.pools, t.execs[d]) {
      assert HoldsIts(s.pools, s.execs[d]);
    }
  }

  /** Pools changed counters or flags only; executions that hold nothing may have been added. */
  lemma SameLeasing(s: Service, t: Service)
    requires Leasing(s) && SameSlots(s.pools, t.pools) && t.workers == s.workers && t.home == s.home
    requires |s.execs| <= |t.execs| && (forall e :: 0 <= e < |s.execs| ==> t.execs[e] == s.execs[e])
    requires forall e :: |s.execs| <= e < |t.execs| ==> t.execs[e].slot.None?
    ensures Leasing(t)
  {
    HoldersStay(s.pools, t.pools, s.execs, t.execs);
    ServersStay(s.workers, t.workers, s.execs, t.execs);
    forall d | 0 <= d < |t.execs| ensures HoldsIts(t.pools, t.execs[d]) {
      if d < |s.execs| { assert HoldsIts(s.pools, s.execs[d]); }
    }
  }

  // ------------------------------------------------------------ lifetimes

  /** The same executions are pinned. */
  lemma MoveLifetimes(s: Service, t: Service, e: nat, x: Exec)
    requires Lifetimes(s) && e < |s.execs| && t == s.(execs := s.execs[e := x], active := t.active,
      workers := t.workers)
    requires !s.execs[e].pc.Done? && !x.pc.Done? && x.pool == s.execs[e].pool && |t.workers| == |s.workers|
    ensures Lifetimes(t)
  {
    forall p | 0 <= p < |s.pools| ensures |Pinned(t.execs, p)| == |Pinned(s.execs, p)| {
      PinnedMoved(s.execs, e, x, p);
    }
  }

  /** One execution moved on; nothing else changed but the active map. */
  lemma MoveKeeps(s: Service, t: Service, e: nat, x: Exec)
    requires Inv(s) && e < |s.execs| && t == s.(execs := s.execs[e := x], active := t.active)
    requires x.req == s.execs[e].req && x.pool == s.execs[e].pool && x.slot == s.execs[e].slot
      && x.leasedWorker == s.execs[e].leasedWorker
    requires !s.execs[e].pc.Done? && !x.pc.Done? && KeepsCancelled(s.execs[e], x)
    requires x.slot.Some? ==> x.pc.Dispatched? == s.execs[e].pc.Dispatched?
    requires Shape(x) && x.pool < |s.pools| && ResultSound(x, s.pools[x.pool].identity)
    requires Owned(t.execs, t.active)
    ensures Inv(t)
  {
    MoveBookkeeping(s, t, e, x);
    MoveLeasing(s, t, e, x);
    MoveLifetimes(s, t, e, x);
  }

  /** Only counters and flags of pools changed. */
  lemma QuietKeeps(s: Service, t: Service)
    requires Bookkeeping(s) && Leasing(s) && SameGenerations(s.pools, t.pools) && SameSlots(s.pools, t.pools)
    requires t.execs == s.execs && t.active == s.active && t.cancels == s.cancels && t.workers == s.workers
      && t.home == s.home
    ensures Bookkeeping(t) && Leasing(t)
  {
    SameBookkeeping(s, t);
    SameLeasing(s, t);
  }

  lemma TouchHanded(pools: seq<Pool>, workers: seq<Worker>, handed: set<WorkerRef>, home: map<WorkerRef, Place>,
    p: nat, q: Pool)
    requires HandedOverRight(pools, workers, handed) && Housed(pools, home) && Identified(pools, workers)
    requires p < |pools| && |q.slots| == |pools[p].slots| && (pools[p].closed ==> q.closed)
    requires forall i :: 0 <= i < |q.slots| ==> q.slots[i].worker == pools[p].slots[i].worker
    ensures HandedOverRight(pools[p := q], workers, handed + HandedOver(pools[p], q))
  {
    var pools' := pools[p := q];
    var handed' := handed + HandedOver(pools[p], q);
    forall r, i | 0 <= r < |pools'| && 0 <= i < |pools'[r].slots|
      ensures pools'[r].slots[i].worker in handed' <==> pools'[r].closed
    {
      var w := pools'[r].slots[i].worker;
      assert pools[r].slots[i].worker in handed <==> pools[r].closed;
      if r == p {
        assert q.slots[i].worker in SlotWorkers(q.slots);
      } else {
        assert forall j :: 0 <= j < |q.slots| ==> pools[p].slots[j].worker != w;
      }
    }
    assert forall w :: w in SlotWorkers(q.slots) ==> exists i :: 0 <= i < |q.slots| && pools[p].slots[i].worker == w;
  }

  /** One pool region: its own lifecycle is right and it neither reopens nor stops draining. */
  lemma TouchLifetimes(s: Service, t: Service, p: nat, q: Pool)
    requires Lifetimes(s) && Housed(s.pools, s.home) && Identified(s.pools, s.workers)
    requires p < |s.pools| && t.pools == s.pools[p := q] && t.handed == s.handed + HandedOver(s.pools[p], q)
    requires t.current == s.current && t.ready == s.ready && t.admin == s.admin && t.retired == s.retired
      && t.workers == s.workers
    requires |q.slots| == |s.pools[p].slots| && (forall i :: 0 <= i < |q.slots| ==>
      q.slots[i].worker == s.pools[p].slots[i].worker)
    requires q.identity == s.pools[p].identity && q.published == s.pools[p].published
      && q.draining == s.pools[p].draining
    requires (s.pools[p].closed ==> q.closed) && (!q.published ==> q.closed == s.pools[p].closed)
    requires Lifecycle(q) && Counted(t.pools, t.execs)
    ensures Lifetimes(t)
  {
    TouchHanded(s.pools, s.workers, s.handed, s.home, p, q);
  }

  // ------------------------------------------------------------ admission

  /** While the service is ready its current generation is open. */
  lemma CurrentIsOpen(pools: seq<Pool>, current: nat, admin: Admin)
    requires Lifecycles(pools) && Ordered(pools, current) && Drained(pools, current, true, admin)
    ensures !pools[current].closed
  {
    assert Lifecycle(pools[current]);
  }

  lemma AppendBookkeeping(s: Service, t: Service, x: Exec)
    requires Bookkeeping(s) && t.execs == s.execs + [x] && t.cancels == s.cancels && t.active == s.active
      && t.workers == s.workers
    requires SameGenerations(s.pools, t.pools)
    requires x.pool < |s.pools| && !Listed(x.pc) && Shape(x) && ResultSound(x, s.pools[x.pool].identity)
    requires !x.pc.Done? ==> s.pools[x.pool].published
    ensures Bookkeeping(t)
  {
    CancelsStay(s.execs, t.execs, s.workers, t.workers, s.cancels);
    assert Owned(t.execs, t.active);
  }

  lemma AppendCounted(pools: seq<Pool>, execs: seq<Exec>, x: Exec, p: nat, q: Pool)
    requires Counted(pools, execs) && p < |pools| && x.pool == p
    requires q.references == pools[p].references + if x.pc.Done? then 0 else 1
    ensures Counted(pools[p := q], execs + [x])
  {
    forall r | 0 <= r < |pools|
      ensures |Pinned(execs + [x], r)| == |Pinned(execs, r)| + if !x.pc.Done? && x.pool == r then 1 else 0
    {
      PinnedMore(execs, x, r);
    }
  }

  lemma AdmitKeeps(s: Service, req: Request)
    requires Inv(s)
    ensures Inv(AdmitStep(s, req))
  {
    var t := AdmitStep(s, req);
    var x := t.execs[|s.execs|];
    var p := s.current;
    var q := t.pools[p];
    AdmitShape(s, req);
    AppendBookkeeping(s, t, x);
    SameLeasing(s, t);
    AppendCounted(s.pools, s.execs, x, p, q);
    TouchLifetimes(s, t, p, q);
  }

  /** What admission writes: one execution record, and at most one reference on an open pool. */
  lemma AdmitShape(s: Service, req: Request)
    requires Lifecycles(s.pools) && Ordered(s.pools, s.current) && Drained(s.pools, s.current, s.ready, s.admin)
    ensures var t := AdmitStep(s, req);
            && |t.execs| == |s.execs| + 1 && |t.pools| == |s.pools|
            && var x := t.execs[|s.execs|];
            && var q := t.pools[s.current];
            && t.execs == s.execs + [x] && t.pools == s.pools[s.current := q]
            && t == s.(execs := t.execs, pools := t.pools)
            && x.pool == s.current && !Listed(x.pc) && Shape(x) && ResultSound(x, s.pools[s.current].identity)
            && q == s.pools[s.current].(references := s.pools[s.current].references + if x.pc.Done? then 0 else 1)
            && Lifecycle(q) && t.handed == s.handed + HandedOver(s.pools[s.current], q)
            && SameGenerations(s.pools, t.pools) && SameSlots(s.pools, t.pools)
  {
    if s.ready { CurrentIsOpen(s.pools, s.current, s.admin); }
    assert Lifecycle(s.pools[s.current]);
    assert s.pools == s.pools[s.current := s.pools[s.current]];
  }

  // ------------------------------------------------------------ registration and the reference

  lemma RegisterKeeps(s: Service, e: nat)
    requires Inv(s) && At(s, e, Retained)
    ensures Inv(RegisterStep(s, e))
  {
    var x := s.execs[e];
    if x.req.id in s.active {
      DropKeeps(s, e, x.(outcome := DuplicateRequest));
    } else {
      RegisterNewKeeps(s, e);
    }
  }

  lemma RegisterNewKeeps(s: Service, e: nat)
    requires Inv(s) && At(s, e, Retained) && s.execs[e].req.id !in s.active
    ensures Inv(RegisterStep(s, e))
  {
    var t := RegisterStep(s, e);
    ListOwned(s.execs, s.active, e, t.execs[e]);
    MoveKeeps(s, t, e, t.execs[e]);
  }

  lemma DropCounted(pools: seq<Pool>, execs: seq<Exec>, e: nat, x: Exec, q: Pool)
    requires Counted(pools, execs) && e < |execs| && !execs[e].pc.Done?
    requires x.pc.Done? && x.pool == execs[e].pool < |pools| && q.references == pools[x.pool].references - 1
    ensures Counted(pools[x.pool := q], execs[e := x])
  {
    forall p | 0 <= p < |pools|
      ensures |Pinned(execs[e := x], p)| == |Pinned(execs, p)| - if x.pool == p then 1 else 0
    {
      PinnedMoved(execs, e, x, p);
    }
  }

  /** What dropping a reference writes: it was counted, so it cannot underflow. */
  lemma DropShape(s: Service, e: nat, x: Exec)
    requires Counted(s.pools, s.execs) && Lifecycles(s.pools) && LeasesCounted(s.pools)
    requires (At(s, e, Retained) || At(s, e, Dropping)) && x.pool == s.execs[e].pool
    ensures var t := DropReferenceOf(s, e, x);
            && |t.pools| == |s.pools|
            && var q := t.pools[x.pool];
            && t == s.(execs := s.execs[e := x.(pc := Done)], pools := s.pools[x.pool := q],
                       handed := s.handed + HandedOver(s.pools[x.pool], q))
            && q == s.pools[x.pool].(references := s.pools[x.pool].references - 1, closed := q.closed,
              handoffs := q.handoffs)
            && Lifecycle(q) && (s.pools[x.pool].closed ==> q.closed)
              && (!q.published ==> q.closed == s.pools[x.pool].closed || q.draining)
            && SameGenerations(s.pools, t.pools) && SameSlots(s.pools, t.pools)
  {
    PinnedHere(s.pools, s.execs, e);
    assert Lifecycle(s.pools[x.pool]);
  }

  lemma DropKeeps(s: Service, e: nat, x: Exec)
    requires Inv(s) && (At(s, e, Retained) || At(s, e, Dropping))
    requires x == s.execs[e].(outcome := x.outcome) && !Impossible(x.outcome)
    requires x.outcome.Returned? ==> x.outcome == s.execs[e].outcome
    ensures Inv(DropReferenceOf(s, e, x))
  {
    var t := DropReferenceOf(s, e, x);
    var x' := x.(pc := Done);
    DropShape(s, e, x);
    MoveOwned(s.execs, s.active, e, x');
    MoveBookkeeping(s, t, e, x');
    MoveLeasing(s, t, e, x');
    DropCounted(s.pools, s.execs, e, x', t.pools[x.pool]);
    TouchLifetimes(s, t, x.pool, t.pools[x.pool]);
  }

  // ------------------------------------------------------------ waiting, publishing, unwinding

  lemma GiveUpKeeps(s: Service, e: nat)
    requires Inv(s) && Enabled(s, GiveUpLease(e))
    ensures Inv(Step(s, GiveUpLease(e)))
  {
    var x := s.execs[e].(pc := Popping, outcome := LeaseTimeout);
    GiveUpShape(s, e);
    MoveOwned(s.execs, s.active, e, x);
    GiveUpSound(s, e);
    MoveKeeps(s, SetExec(s, e, x), e, x);
  }

  /** A pinned generation is open, so what a lease gives up on is the wait. */
  lemma GiveUpShape(s: Service, e: nat)
    requires Counted(s.pools, s.execs) && Lifecycles(s.pools) && Enabled(s, GiveUpLease(e))
    ensures Step(s, GiveUpLease(e)) == SetExec(s, e, s.execs[e].(pc := Popping, outcome := LeaseTimeout))
  {
    PinnedIsOpen(s.pools, s.execs, e);
  }

  lemma GiveUpSound(s: Service, e: nat)
    requires Bookkeeping(s) && At(s, e, Registered)
    ensures var x := s.execs[e].(pc := Popping, outcome := LeaseTimeout);
      Shape(x) && KeepsCancelled(s.execs[e], x) && ResultSound(x, s.pools[x.pool].identity)
  {
    assert Shape(s.execs[e]);
  }

  /** A pinned generation is open. */
  lemma PinnedIsOpen(pools: seq<Pool>, execs: seq<Exec>, e: nat)
    requires Counted(pools, execs) && Lifecycles(pools) && e < |execs| && execs[e].pool < |pools| && !execs[e].pc.Done?
    ensures !pools[execs[e].pool].closed
  {
    PinnedHere(pools, execs, e);
    assert Lifecycle(pools[execs[e].pool]);
  }

  lemma PublishShape(s: Service, e: nat)
    requires Shaped(s.execs) && Owned(s.execs, s.active) && ResultsSound(s.pools, s.execs) && At(s, e, Leased)
    ensures var t := PublishStep(s, e);
            && |t.execs| == |s.execs|
            && var x := s.execs[e];
            && var x' := t.execs[e];
            && t == s.(execs := s.execs[e := x'])
            && x' == x.(pc := x'.pc, slotVisible := true, outcome := x'.outcome)
            && Shape(x') && KeepsCancelled(x, x') && ResultSound(x', s.pools[x.pool].identity)
            && (x'.pc.Popping? || x'.pc.Published?)
  {
    assert Shape(s.execs[e]);
  }

  lemma PublishKeeps(s: Service, e: nat)
    requires Inv(s) && At(s, e, Leased)
    ensures Inv(PublishStep(s, e))
  {
    var t := PublishStep(s, e);
    PublishShape(s, e);
    MoveOwned(s.execs, s.active, e, t.execs[e]);
    MoveKeeps(s, t, e, t.execs[e]);
  }

  lemma PopKeeps(s: Service, e: nat)
    requires Inv(s) && At(s, e, Popping)
    ensures Inv(PopStep(s, e))
  {
    var t := PopStep(s, e);
    UnlistOwned(s.execs, s.active, e, t.execs[e]);
    MoveKeeps(s, t, e, t.execs[e]);
  }

  // ------------------------------------------------------------ taking and giving back a slot

  /** Only the request of slot `i` of pool `p` changed. */
  lemma SlotHoused(pools: seq<Pool>, workers: seq<Worker>, home: map<WorkerRef, Place>, p: nat, i: nat, q: Pool)
    requires Housed(pools, home) && Identified(pools, workers)
    requires p < |pools| && i < |pools[p].slots| && q.identity == pools[p].identity
    requires |q.slots| == |pools[p].slots|
    requires q.slots == pools[p].slots[i := pools[p].slots[i].(request := q.slots[i].request)]
    ensures Housed(pools[p := q], home) && Identified(pools[p := q], workers)
  {
    assert forall j :: 0 <= j < |q.slots| ==> q.slots[j].worker == pools[p].slots[j].worker;
  }

  lemma LeaseHeld(pools: seq<Pool>, execs: seq<Exec>, e: nat, i: nat, x: Exec)
    requires Held(pools, execs) && Exclusive(execs) && Accounted(pools, execs) && e < |execs|
    requires execs[e].slot.None? && execs[e].pool < |pools| && i < |pools[execs[e].pool].slots|
    requires pools[execs[e].pool].slots[i].request.None?
    requires x.req == execs[e].req && x.pool == execs[e].pool && x.slot == Some(i)
    requires x.leasedWorker == Some(pools[x.pool].slots[i].worker)
    ensures var pools' := pools[x.pool := LeaseAt(pools[x.pool], i, x.req.id)];
            Held(pools', execs[e := x]) && Exclusive(execs[e := x]) && Accounted(pools', execs[e := x])
  {
    var pools' := pools[x.pool := LeaseAt(pools[x.pool], i, x.req.id)];
    var execs' := execs[e := x];
    forall d | 0 <= d < |execs'| ensures HoldsIts(pools', execs'[d]) {
      assert HoldsIts(pools, execs[d]);
    }
    assert forall d :: 0 <= d < |execs| && execs[d].pool == x.pool ==>
      HoldsIts(pools, execs[d]) && execs[d].slot != Some(i);
    forall p: nat, j: nat | LeasedAt(pools', p, j)
      ensures exists d: nat :: HolderOf(execs', p, j, d)
    {
      if p == x.pool && j == i {
        assert HolderOf(execs', p, j, e);
      } else {
        assert LeasedAt(pools, p, j);
        var d: nat :| HolderOf(execs, p, j, d);
        assert HolderOf(execs', p, j, d);
      }
    }
  }

  lemma LeaseLeasing(s: Service, e: nat, i: nat)
    requires Leasing(s) && Enabled(s, Lease(e, i)) && s.execs[e].slot.None?
    ensures Leasing(LeaseStep(s, e, i))
  {
    var t := LeaseStep(s, e, i);
    var x := t.execs[e];
    LeaseHeld(s.pools, s.execs, e, i, x);
    SlotHoused(s.pools, s.workers, s.home, x.pool, i, t.pools[x.pool]);
    LeaseCounts(s.pools[x.pool].slots, i, x.req.id);
    ServersStay(s.workers, t.workers, s.execs, t.execs);
    LeaseServes(s.pools, s.workers, s.execs, e, i, x);
  }

  lemma LeaseServes(pools: seq<Pool>, workers: seq<Worker>, execs: seq<Exec>, e: nat, i: nat, x: Exec)
    requires Serving(workers, execs) && FreeIdle(pools, workers) && e < |execs|
    requires x.pool < |pools| && i < |pools[x.pool].slots| && pools[x.pool].slots[i].request.None?
    requires x.leasedWorker == Some(pools[x.pool].slots[i].worker) && !x.pc.Dispatched?
    ensures Serving(workers, execs[e := x])
    ensures FreeIdle(pools[x.pool := LeaseAt(pools[x.pool], i, x.req.id)], workers)
  {
    var execs' := execs[e := x];
    forall d | 0 <= d < |execs'| ensures ServesHolder(workers, execs'[d]) {
      assert ServesHolder(workers, execs[d]);
    }
  }

  lemma LeaseKeeps(s: Service, e: nat, i: nat)
    requires Inv(s) && Enabled(s, Lease(e, i))
    ensures Inv(LeaseStep(s, e, i))
  {
    var t := LeaseStep(s, e, i);
    var x := t.execs[e];
    MoveOwned(s.execs, s.active, e, x);
    MoveBookkeeping(s, t, e, x);
    LeaseLeasing(s, e, i);
    LeaseLifetimes(s, e, i);
  }

  lemma LeaseLifetimes(s: Service, e: nat, i: nat)
    requires Inv(s) && Enabled(s, Lease(e, i))
    ensures Lifetimes(LeaseStep(s, e, i))
  {
    var t := LeaseStep(s, e, i);
    var x, mid := t.execs[e], s.(execs := t.execs);
    MoveLifetimes(s, mid, e, x);
    LeaseLifecycle(s.pools, s.execs, e, i);
    TouchLifetimes(mid, t, x.pool, t.pools[x.pool]);
  }

  lemma LeaseLifecycle(pools: seq<Pool>, execs: seq<Exec>, e: nat, i: nat)
    requires Counted(pools, execs) && Lifecycles(pools) && LeasesCounted(pools)
    requires e < |execs| && execs[e].pool < |pools| && !execs[e].pc.Done? && i < |pools[execs[e].pool].slots|
    ensures Lifecycle(LeaseAt(pools[execs[e].pool], i, execs[e].req.id))
    ensures Counted(pools[execs[e].pool := LeaseAt(pools[execs[e].pool], i, execs[e].req.id)], execs)
  {
    PinnedHere(pools, execs, e);
    assert Lifecycle(pools[execs[e].pool]);
  }

  lemma ReleaseHeld(pools: seq<Pool>, execs: seq<Exec>, e: nat, x: Exec, q: Pool)
    requires Held(pools, execs) && Exclusive(execs) && Accounted(pools, execs) && e < |execs|
    requires execs[e].slot.Some? && HoldsIts(pools, execs[e]) && x == execs[e].(slot := None, pc := x.pc)
    requires q.slots == pools[x.pool].slots[execs[e].slot.value := pools[x.pool].slots[execs[e].slot.value]
      .(request := None)]
    ensures Held(pools[x.pool := q], execs[e := x]) && Exclusive(execs[e := x])
      && Accounted(pools[x.pool := q], execs[e := x])
  {
    var pools' := pools[x.pool := q];
    var execs' := execs[e := x];
    forall d | 0 <= d < |execs'| ensures HoldsIts(pools', execs'[d]) {
      assert HoldsIts(pools, execs[d]);
    }
    forall p: nat, j: nat | LeasedAt(pools', p, j)
      ensures exists d: nat :: HolderOf(execs', p, j, d)
    {
      assert LeasedAt(pools, p, j);
      var d: nat :| HolderOf(execs, p, j, d);
      assert HolderOf(execs', p, j, d);
    }
  }

  lemma ReleaseServes(pools: seq<Pool>, workers: seq<Worker>, execs: seq<Exec>, e: nat, x: Exec, q: Pool)
    requires Serving(workers, execs) && FreeIdle(pools, workers) && e < |execs| && HoldsIts(pools, execs[e])
    requires execs[e].slot.Some? && !execs[e].pc.Dispatched? && x == execs[e].(slot := None, pc := x.pc)
    requires q.slots == pools[x.pool].slots[execs[e].slot.value := pools[x.pool].slots[execs[e].slot.value]
      .(request := None)]
    ensures Serving(workers, execs[e := x]) && FreeIdle(pools[x.pool := q], workers)
  {
    assert ServesHolder(workers, execs[e]);
    var execs' := execs[e := x];
    forall d | 0 <= d < |execs'| ensures ServesHolder(workers, execs'[d]) {
      assert ServesHolder(workers, execs[d]);
    }
  }

  /** What giving back a held slot writes. */
  lemma GiveBackShape(s: Service, e: nat)
    requires Held(s.pools, s.execs) && LeasesCounted(s.pools) && Lifecycles(s.pools) && Counted(s.pools, s.execs)
    requires Enabled(s, GiveBack(e)) && s.execs[e].slot.Some?
    ensures var t := GiveBackStep(s, e);
            && |t.pools| == |s.pools|
            && var x := s.execs[e];
            && var x' := x.(pc := Dropping, slot := None);
            && var q := t.pools[x.pool];
            && var i := x.slot.value;
            && HoldsIts(s.pools, x)
            && t == s.(execs := s.execs[e := x'], pools := s.pools[x.pool := q])
            && q == s.pools[x.pool].(slots := s.pools[x.pool].slots[i := s.pools[x.pool].slots[i].(request := None)],
                                     active := s.pools[x.pool].active - 1)
            && !s.pools[x.pool].closed && Lifecycle(q)
  {
    var x := s.execs[e];
    assert HoldsIts(s.pools, x);
    PinnedHere(s.pools, s.execs, e);
    assert Lifecycle(s.pools[x.pool]);
    var q := GiveBackStep(s, e).pools[x.pool];
    assert s.handed + HandedOver(s.pools[x.pool], q) == s.handed;
  }

  lemma GiveBackLeasing(s: Service, e: nat)
    requires Leasing(s) && Lifecycles(s.pools) && Counted(s.pools, s.execs)
    requires Enabled(s, GiveBack(e)) && s.execs[e].slot.Some?
    ensures Leasing(GiveBackStep(s, e))
  {
    var t := GiveBackStep(s, e);
    GiveBackShape(s, e);
    var x := s.execs[e];
    var q := t.pools[x.pool];
    ReleaseHeld(s.pools, s.execs, e, t.execs[e], q);
    ReleaseServes(s.pools, s.workers, s.execs, e, t.execs[e], q);
    SlotHoused(s.pools, s.workers, s.home, x.pool, x.slot.value, q);
    ServersStay(s.workers, t.workers, s.execs, t.execs);
    ReleaseCounts(s.pools[x.pool].slots, x.slot.value);
  }

  lemma GiveBackLifetimes(s: Service, e: nat)
    requires Lifetimes(s) && Held(s.pools, s.execs) && LeasesCounted(s.pools)
    requires Housed(s.pools, s.home) && Identified(s.pools, s.workers)
    requires Enabled(s, GiveBack(e)) && s.execs[e].slot.Some?
    ensures Lifetimes(GiveBackStep(s, e))
  {
    var t := GiveBackStep(s, e);
    var x := s.execs[e];
    GiveBackShape(s, e);
    var mid := s.(execs := t.execs);
    MoveLifetimes(s, mid, e, t.execs[e]);
    TouchLifetimes(mid, t, x.pool, t.pools[x.pool]);
  }

  lemma GiveBackBookkeeping(s: Service, t: Service, e: nat)
    requires Bookkeeping(s) && At(s, e, Releasing)
    requires t == s.(execs := s.execs[e := s.execs[e].(pc := Dropping, slot := None)], pools := t.pools)
    requires SameGenerations(s.pools, t.pools)
    ensures Bookkeeping(t)
  {
    var x := s.execs[e].(pc := Dropping, slot := None);
    assert Shape(s.execs[e]);
    MoveOwned(s.execs, s.active, e, x);
    MoveBookkeeping(s, t, e, x);
  }

  lemma GiveBackKeeps(s: Service, e: nat)
    requires Inv(s) && Enabled(s, GiveBack(e))
    ensures Inv(GiveBackStep(s, e))
  {
    if s.execs[e].slot.None? { GiveBackNothing(s, e); } else { GiveBackHeld(s, e); }
  }

  lemma GiveBackNothing(s: Service, e: nat)
    requires Inv(s) && Enabled(s, GiveBack(e)) && s.execs[e].slot.None?
    ensures Inv(GiveBackStep(s, e))
  {
    var t := GiveBackStep(s, e);
    MoveLeasing(s, t, e, t.execs[e]);
    MoveLifetimes(s, t, e, t.execs[e]);
    GiveBackBookkeeping(s, t, e);
  }

  lemma GiveBackHeld(s: Service, e: nat)
    requires Inv(s) && Enabled(s, GiveBack(e)) && s.execs[e].slot.Some?
    ensures Inv(GiveBackStep(s, e))
  {
    GiveBackShape(s, e);
    GiveBackLeasing(s, e);
    GiveBackLifetimes(s, e);
    GiveBackBookkeeping(s, GiveBackStep(s, e), e);
  }

  // ------------------------------------------------------------ the worker protocol

  /** Only the worker behind execution `e`'s slot changed what it serves. */
  lemma ServeLeasing(s: Service, t: Service, e: nat, x: Exec, v: Worker)
    requires Leasing(s) && e < |s.execs| && s.execs[e].slot.Some? && HoldsIts(s.pools, s.execs[e])
    requires t.execs == s.execs[e := x] && t.pools == s.pools && t.home == s.home
    requires x.req == s.execs[e].req && x.pool == s.execs[e].pool && x.slot == s.execs[e].slot
      && x.leasedWorker == s.execs[e].leasedWorker
    requires x.leasedWorker.value < |s.workers| && t.workers == s.workers[x.leasedWorker.value := v]
    requires v == s.workers[x.leasedWorker.value].(serving := if x.pc.Dispatched? then Some(x.req.id) else None)
    ensures Leasing(t)
  {
    HoldersStay(s.pools, t.pools, s.execs, t.execs);
    var w := x.leasedWorker.value;
    forall d | 0 <= d < |t.execs| ensures HoldsIts(t.pools, t.execs[d]) && ServesHolder(t.workers, t.execs[d]) {
      assert HoldsIts(s.pools, s.execs[d]) && ServesHolder(s.workers, s.execs[d]);
    }
    forall i: nat | i < |t.workers| && t.workers[i].serving.Some?
      ensures exists d: nat :: ServedBy(t.execs, i, d)
    {
      if i == w {
        assert ServedBy(t.execs, i, e);
      } else {
        var d: nat :| ServedBy(s.execs, i, d);
        assert ServedBy(t.execs, i, d);
      }
    }
    assert Identified(t.pools, t.workers) by {
      SameIdentities(s.pools, s.workers, t.workers);
    }
  }

  lemma SameIdentities(pools: seq<Pool>, v: seq<Worker>, w: seq<Worker>)
    requires Identified(pools, v) && |v| <= |w|
    requires forall i :: 0 <= i < |v| ==>
      w[i].id == v[i].id && w[i].process == v[i].process && w[i].registry == v[i].registry
    ensures Identified(pools, w)
  {
    forall p | 0 <= p < |pools|
      ensures WellIndexed(pools[p].slots, w) && Distinct(pools[p].slots, w, pools[p].identity)
    {
      assert WellIndexed(pools[p].slots, v) && Distinct(pools[p].slots, v, pools[p].identity);
    }
  }

  /** One execution moved on and its worker changed what it serves. */
  lemma ServeKeeps(s: Service, t: Service, e: nat, x: Exec, v: Worker)
    requires Inv(s) && e < |s.execs| && s.execs[e].slot.Some? && HoldsIts(s.pools, s.execs[e])
    requires x.leasedWorker == s.execs[e].leasedWorker && x.leasedWorker.value < |s.workers|
    requires t == s.(execs := s.execs[e := x], workers := s.workers[x.leasedWorker.value := v])
    requires x.req == s.execs[e].req && x.pool == s.execs[e].pool && x.slot == s.execs[e].slot
    requires v == s.workers[x.leasedWorker.value].(serving := if x.pc.Dispatched? then Some(x.req.id) else None)
    requires !s.execs[e].pc.Done? && !x.pc.Done? && Listed(s.execs[e].pc) && Listed(x.pc)
      && KeepsCancelled(s.execs[e], x)
    requires Shape(x) && ResultSound(x, s.pools[x.pool].identity)
    ensures Inv(t)
  {
    MoveOwned(s.execs, s.active, e, x);
    MoveBookkeeping(s, t, e, x);
    ServeLeasing(s, t, e, x, v);
    MoveLifetimes(s, t, e, x);
  }

  /** What dispatch writes: the worker was free for this request. */
  lemma DispatchShape(s: Service, e: nat)
    requires Held(s.pools, s.execs) && Serving(s.workers, s.execs) && Shaped(s.execs) && Enabled(s, Dispatch(e))
    ensures var t := DispatchStep(s, e);
            && var x := s.execs[e];
            && HoldsIts(s.pools, x) && x.leasedWorker == Some(WorkerOf(s, e)) && |t.execs| == |s.execs|
            && var x' := t.execs[e];
            && x' == x.(dispatched := true, pc := x'.pc, outcome := x'.outcome)
            && (x'.pc.Popping? || x'.pc.Dispatched?) && Shape(x') && !x'.outcome.Returned?
            && var v := s.workers[WorkerOf(s, e)].(serving := if x'.pc.Dispatched? then Some(x.req.id) else None);
            && t == s.(execs := s.execs[e := x'], workers := s.workers[WorkerOf(s, e) := v])
  {
    var x := s.execs[e];
    assert HoldsIts(s.pools, x) && ServesHolder(s.workers, x) && Shape(x);
    assert s.workers == s.workers[WorkerOf(s, e) := s.workers[WorkerOf(s, e)]];
  }

  lemma DispatchKeeps(s: Service, e: nat)
    requires Inv(s) && Enabled(s, Dispatch(e))
    ensures Inv(DispatchStep(s, e))
  {
    var t := DispatchStep(s, e);
    DispatchShape(s, e);
    ServeKeeps(s, t, e, t.execs[e], t.workers[WorkerOf(s, e)]);
  }

  lemma FinishShape(s: Service, e: nat, reply: Option<Response>)
    requires Held(s.pools, s.execs) && Serving(s.workers, s.execs) && Shaped(s.execs) && Enabled(s, Finish(e, reply))
    requires ResultsSound(s.pools, s.execs)
    ensures var t := FinishStep(s, e, reply);
            && var x := s.execs[e];
            && HoldsIts(s.pools, x) && x.leasedWorker == Some(WorkerOf(s, e)) && |t.execs| == |s.execs|
            && var x' := t.execs[e];
            && x' == x.(pc := Popping, outcome := x'.outcome) && Shape(x') && ResultSound(x', s.pools[x.pool].identity)
            && t == s.(execs := s.execs[e := x'], workers := s.workers[WorkerOf(s, e) := s.workers[WorkerOf(s, e)]
              .(serving := None)])
  {
    var x := s.execs[e];
    assert HoldsIts(s.pools, x) && ServesHolder(s.workers, x) && Shape(x);
  }

  lemma FinishKeeps(s: Service, e: nat, reply: Option<Response>)
    requires Inv(s) && Enabled(s, Finish(e, reply))
    ensures Inv(FinishStep(s, e, reply))
  {
    var t := FinishStep(s, e, reply);
    FinishShape(s, e, reply);
    ServeKeeps(s, t, e, t.execs[e], t.workers[WorkerOf(s, e)]);
  }

  // ------------------------------------------------------------ cancellation

  lemma AppendCancel(execs: seq<Exec>, workers: seq<Worker>, cancels: seq<Cancel>, k: Cancel)
    requires CancelsSound(execs, workers, cancels) && CancelSound(execs, workers, k)
    ensures CancelsSound(execs, workers, cancels + [k])
  {
  }

  /** What a matching cancel writes: the flag on the execution it found, and its own record. */
  lemma AskCancelShape(s: Service, rid: RequestId, session: Token, run: Token)
    requires Bookkeeping(s) && Held(s.pools, s.execs) && Identified(s.pools, s.workers)
      && Enabled(s, AskCancel(rid, session, run))
    ensures var t := AskCancelStep(s, rid, session, run);
            && |t.cancels| == |s.cancels| + 1
            && var k := t.cancels[|s.cancels|];
            && t == s.(execs := t.execs, cancels := s.cancels + [k])
            && CancelSound(t.execs, t.workers, k)
            && (t.execs == s.execs || (rid in s.active && t.execs
              == s.execs[s.active[rid] := s.execs[s.active[rid]].(cancelRequested := true)]))
  {
    if rid in s.active {
      var e := s.active[rid];
      assert Shape(s.execs[e]) && HoldsIts(s.pools, s.execs[e]);
      assert Listed(s.execs[e].pc);
      assert WellIndexed(s.pools[s.execs[e].pool].slots, s.workers);
    }
  }

  lemma FlagBookkeeping(s: Service, rid: RequestId)
    requires Bookkeeping(s) && rid in s.active
    ensures var e := s.active[rid];
            e < |s.execs| && Bookkeeping(s.(execs := s.execs[e := s.execs[e].(cancelRequested := true)]))
  {
    var e := s.active[rid];
    var x := s.execs[e].(cancelRequested := true);
    assert Shape(s.execs[e]);
    MoveOwned(s.execs, s.active, e, x);
    MoveBookkeeping(s, s.(execs := s.execs[e := x]), e, x);
  }

  lemma AskCancelBookkeeping(s: Service, rid: RequestId, session: Token, run: Token)
    requires Bookkeeping(s) && Held(s.pools, s.execs) && Identified(s.pools, s.workers)
      && Enabled(s, AskCancel(rid, session, run))
    ensures Bookkeeping(AskCancelStep(s, rid, session, run))
  {
    var t := AskCancelStep(s, rid, session, run);
    AskCancelShape(s, rid, session, run);
    if t.execs != s.execs { FlagBookkeeping(s, rid); }
    AppendCancel(t.execs, t.workers, s.cancels, t.cancels[|s.cancels|]);
  }

  lemma AskCancelKeeps(s: Service, rid: RequestId, session: Token, run: Token)
    requires Inv(s) && Enabled(s, AskCancel(rid, session, run))
    ensures Inv(AskCancelStep(s, rid, session, run))
  {
    var t := AskCancelStep(s, rid, session, run);
    AskCancelBookkeeping(s, rid, session, run);
    AskCancelShape(s, rid, session, run);
    if t.execs != s.execs {
      var e := s.active[rid];
      var mid := s.(execs := t.execs);
      MoveLeasing(s, mid, e, t.execs[e]);
      MoveLifetimes(s, mid, e, t.execs[e]);
    }
  }

  /** Workers may close, die or record a confirmed termination; everything else about them stays. */
  ghost predicate SameWorkers(a: seq<Worker>, b: seq<Worker>)
  {
    && |a| == |b|
    && KeepsTerminations(a, b)
    && forall w :: 0 <= w < |a| ==>
      b[w] == a[w].(alive := b[w].alive, closed := b[w].closed, terminated := b[w].terminated)
  }

  lemma WorkersLeasing(s: Service, t: Service)
    requires Leasing(s) && SameWorkers(s.workers, t.workers) && Terminations(t.workers)
    requires t.pools == s.pools && t.execs == s.execs && t.home == s.home
    ensures Leasing(t)
  {
    ServersStay(s.workers, t.workers, s.execs, t.execs);
    SameIdentities(s.pools, s.workers, t.workers);
    forall d | 0 <= d < |t.execs| ensures ServesHolder(t.workers, t.execs[d]) {
      assert ServesHolder(s.workers, s.execs[d]);
    }
  }

  lemma CancelAtWorkerKeeps(s: Service, c: nat, terminated: bool)
    requires Inv(s) && Enabled(s, CancelAtWorker(c, terminated))
    ensures Inv(CancelAtWorkerStep(s, c, terminated))
  {
    var t := CancelAtWorkerStep(s, c, terminated);
    CancelAtWorkerShape(s, c, terminated);
    WorkersLeasing(s, t);
  }

  lemma CancelAtWorkerShape(s: Service, c: nat, terminated: bool)
    requires Bookkeeping(s) && Terminations(s.workers) && Enabled(s, CancelAtWorker(c, terminated))
    ensures var t := CancelAtWorkerStep(s, c, terminated);
            && t == s.(workers := t.workers, cancels := t.cancels)
            && SameWorkers(s.workers, t.workers) && Terminations(t.workers) && Bookkeeping(t)
  {
    CancelAtWorkerWorkers(s, c, terminated);
    CancelAtWorkerBookkeeping(s, c, terminated);
  }

  lemma CancelAtWorkerWorkers(s: Service, c: nat, terminated: bool)
    requires Terminations(s.workers) && Enabled(s, CancelAtWorker(c, terminated))
    ensures var t := CancelAtWorkerStep(s, c, terminated);
            t == s.(workers := t.workers, cancels := t.cancels) && SameWorkers(s.workers, t.workers)
              && Terminations(t.workers)
  {
  }

  lemma CancelAtWorkerBookkeeping(s: Service, c: nat, terminated: bool)
    requires Bookkeeping(s) && Terminations(s.workers) && Enabled(s, CancelAtWorker(c, terminated))
    ensures Bookkeeping(CancelAtWorkerStep(s, c, terminated))
  {
    var t := CancelAtWorkerStep(s, c, terminated);
    CancelsStay(s.execs, s.execs, s.workers, t.workers, s.cancels);
    forall d | 0 <= d < |t.cancels| ensures CancelSound(t.execs, t.workers, t.cancels[d]) {
      assert CancelSound(s.execs, t.workers, s.cancels[d]);
    }
  }

  lemma WorkerKeeps(s: Service, w: WorkerRef, v: Worker)
    requires Inv(s) && w < |s.workers|
    requires v == s.workers[w].(closed := true) || v == s.workers[w].(alive := false)
    ensures Inv(s.(workers := s.workers[w := v]))
  {
    var t := s.(workers := s.workers[w := v]);
    SameBookkeeping(s, t);
    WorkersLeasing(s, t);
  }

  // ------------------------------------------------------------ administration

  lemma MoreWorkers(s: Service, t: Service, launched: seq<Worker>)
    requires Leasing(s) && t == s.(workers := s.workers + launched, handed := t.handed)
    requires forall i :: 0 <= i < |launched| ==> Launched(launched[i])
    ensures Leasing(t)
  {
    ServersStay(s.workers, t.workers, s.execs, t.execs);
    SameIdentities(s.pools, s.workers, t.workers);
    forall d | 0 <= d < |t.execs| ensures ServesHolder(t.workers, t.execs[d]) {
      assert ServesHolder(s.workers, s.execs[d]);
    }
  }

  /** New workers that go nowhere are only ever handed over to be closed. */
  lemma DiscardKeeps(s: Service, t: Service, launched: seq<Worker>)
    requires Inv(s) && t == s.(workers := s.workers + launched, handed := t.handed)
    requires forall i :: 0 <= i < |launched| ==> Launched(launched[i])
    requires forall w :: w in t.handed ==> w in s.handed || |s.workers| <= w < |t.workers|
    requires s.handed <= t.handed
    ensures Inv(t)
  {
    SameBookkeeping(s, t);
    MoreWorkers(s, t, launched);
    assert HandedOverRight(t.pools, t.workers, t.handed) by {
      forall p, i | 0 <= p < |t.pools| && 0 <= i < |t.pools[p].slots|
        ensures t.pools[p].slots[i].worker in t.handed <==> t.pools[p].closed
      {
        assert WellIndexed(s.pools[p].slots, s.workers);
      }
    }
  }

  lemma BuildKeeps(s: Service, identity: Identity, launched: seq<Worker>)
    requires Inv(s) && Enabled(s, BuildCandidate(identity, launched))
    ensures Inv(BuildStep(s, identity, launched))
  {
    var t := BuildStep(s, identity, launched);
    if Acceptable(launched, identity) {
      SameBookkeeping(s, t);
      BuildLeasing(s, identity, launched);
      BuildLifetimes(s, identity, launched);
    } else {
      DiscardKeeps(s, t, launched);
    }
  }

  lemma AppendPoolHeld(pools: seq<Pool>, execs: seq<Exec>, q: Pool)
    requires Held(pools, execs) && Accounted(pools, execs)
    requires forall i :: 0 <= i < |q.slots| ==> q.slots[i].request.None?
    ensures Held(pools + [q], execs) && Accounted(pools + [q], execs)
  {
    HoldersStay(pools, pools + [q], execs, execs);
    forall d | 0 <= d < |execs| ensures HoldsIts(pools + [q], execs[d]) {
      assert HoldsIts(pools, execs[d]);
    }
  }

  lemma AppendPoolHoused(pools: seq<Pool>, home: map<WorkerRef, Place>, workers: seq<Worker>, count: nat, q: Pool)
    requires Housed(pools, home) && HomesKnown(workers, home) && q.slots == FreshSlots(|workers|, count)
    ensures Housed(pools + [q], home + FreshHomes(|workers|, count, |pools|))
  {
    var pools' := pools + [q];
    var home' := home + FreshHomes(|workers|, count, |pools|);
    forall p, i | 0 <= p < |pools'| && 0 <= i < |pools'[p].slots|
      ensures pools'[p].slots[i].worker in home' && home'[pools'[p].slots[i].worker] == Place(p, i)
    {
      if p < |pools| {
        assert pools[p].slots[i].worker in home;
      } else {
        assert q.slots[i].worker in SlotWorkers(q.slots);
      }
    }
  }

  lemma AppendPoolIdentified(pools: seq<Pool>, workers: seq<Worker>, launched: seq<Worker>, q: Pool)
    requires Identified(pools, workers + launched) && FreeIdle(pools, workers + launched)
    requires Acceptable(launched, q.identity) && (forall i :: 0 <= i < |launched| ==> Launched(launched[i]))
    requires q.slots == FreshSlots(|workers|, |launched|)
    ensures Identified(pools + [q], workers + launched) && FreeIdle(pools + [q], workers + launched)
  {
    var all := workers + launched;
    assert forall i :: 0 <= i < |q.slots| ==> q.slots[i].worker == |workers| + i && all[|workers| + i] == launched[i];
  }

  lemma BuildLeasing(s: Service, identity: Identity, launched: seq<Worker>)
    requires Leasing(s) && Enabled(s, BuildCandidate(identity, launched))
    requires Acceptable(launched, identity)
    ensures Leasing(BuildStep(s, identity, launched))
  {
    var t := BuildStep(s, identity, launched);
    MoreWorkers(s, s.(workers := t.workers), launched);
    var q := t.pools[|s.pools|];
    AppendPoolHeld(s.pools, s.execs, q);
    AppendPoolHoused(s.pools, s.home, s.workers, |launched|, q);
    AppendPoolIdentified(s.pools, s.workers, launched, q);
    assert LeasedSlots(q.slots) == {};
  }

  lemma BuildLifetimes(s: Service, identity: Identity, launched: seq<Worker>)
    requires Lifetimes(s) && ExecsIndexed(s.pools, s.execs) && Enabled(s, BuildCandidate(identity, launched))
    requires Acceptable(launched, identity)
    ensures Lifetimes(BuildStep(s, identity, launched))
  {
    var t := BuildStep(s, identity, launched);
    assert Pinned(t.execs, |s.pools|) == {};
    assert Lifecycle(t.pools[|s.pools|]);
  }

  lemma PublishCandidateKeeps(s: Service)
    requires Inv(s) && Enabled(s, PublishCandidate)
    ensures Inv(PublishCandidateStep(s))
  {
    PublishIsQuiet(s);
    PublishLifetimes(s);
  }

  lemma PublishIsQuiet(s: Service)
    requires Bookkeeping(s) && Leasing(s) && Enabled(s, PublishCandidate)
    ensures Bookkeeping(PublishCandidateStep(s)) && Leasing(PublishCandidateStep(s))
  {
    QuietKeeps(s, PublishCandidateStep(s));
  }

  lemma PublishLifetimes(s: Service)
    requires Lifetimes(s) && Enabled(s, PublishCandidate)
    ensures Lifetimes(PublishCandidateStep(s))
  {
    var t := PublishCandidateStep(s);
    var c := s.admin.pool;
    assert Lifecycle(s.pools[c]) && Lifecycle(s.pools[s.current]);
    if t.pools != s.pools {
      PublishOrdered(s.pools, s.current, c);
    }
  }

  lemma PublishOrdered(pools: seq<Pool>, current: nat, c: nat)
    requires Ordered(pools, current) && current < c < |pools|
    requires pools[c].identity.generation > pools[current].identity.generation
    requires forall p :: c < p < |pools| ==> !pools[p].published
    ensures Ordered(pools[c := pools[c].(published := true)], c)
  {
    assert forall p :: 0 <= p < |pools| && pools[p].published ==>
      pools[p].identity.generation <= pools[current].identity.generation;
  }

  lemma AbandonKeeps(s: Service)
    requires Inv(s) && Enabled(s, AbandonCandidate)
    ensures Inv(AbandonStep(s))
  {
    AbandonLifetimes(s);
    AbandonBookkeeping(s);
    AbandonLeasing(s);
  }

  lemma AbandonBookkeeping(s: Service)
    requires Bookkeeping(s) && Enabled(s, AbandonCandidate) && SameGenerations(s.pools, AbandonStep(s).pools)
    ensures Bookkeeping(AbandonStep(s))
  {
    SameBookkeeping(s, AbandonStep(s));
  }

  lemma AbandonLeasing(s: Service)
    requires Leasing(s) && Enabled(s, AbandonCandidate) && SameSlots(s.pools, AbandonStep(s).pools)
    ensures Leasing(AbandonStep(s))
  {
    SameLeasing(s, AbandonStep(s));
  }

  lemma AbandonLifetimes(s: Service)
    requires Lifetimes(s) && PinsPublished(s.pools, s.execs) && LeasesCounted(s.pools) && Accounted(s.pools, s.execs)
    requires Housed(s.pools, s.home) && Identified(s.pools, s.workers) && Shaped(s.execs)
    requires Enabled(s, AbandonCandidate)
    ensures Lifetimes(AbandonStep(s))
    ensures SameGenerations(s.pools, AbandonStep(s).pools) && SameSlots(s.pools, AbandonStep(s).pools)
  {
    UnpublishedIsUnused(s.pools, s.execs, s.admin.pool);
    assert Lifecycle(s.pools[s.admin.pool]);
    AbandonHanded(s);
  }

  lemma AbandonHanded(s: Service)
    requires HandedOverRight(s.pools, s.workers, s.handed) && Housed(s.pools, s.home) && Identified(s.pools, s.workers)
    requires Enabled(s, AbandonCandidate)
    ensures var t := AbandonStep(s); HandedOverRight(t.pools, t.workers, t.handed)
  {
    var c := s.admin.pool;
    TouchHanded(s.pools, s.workers, s.handed, s.home, c, AbandonStep(s).pools[c]);
  }

  lemma UnpublishedIsUnused(pools: seq<Pool>, execs: seq<Exec>, c: nat)
    requires Counted(pools, execs) && LeasesCounted(pools) && Accounted(pools, execs) && PinsPublished(pools, execs)
      && Shaped(execs)
    requires c < |pools| && !pools[c].published
    ensures pools[c].references == 0 && pools[c].active == 0
  {
    assert Pinned(execs, c) == {};
    assert forall e: nat :: e < |execs| && execs[e].slot.Some? ==> Shape(execs[e]) && !execs[e].pc.Done?;
    assert forall i: nat, e: nat :: !HolderOf(execs, c, i, e);
    assert forall i: nat :: !LeasedAt(pools, c, i);
    assert forall i: nat :: i < |pools[c].slots| && pools[c].slots[i].request.Some? ==> LeasedAt(pools, c, i);
    assert LeasedSlots(pools[c].slots) == {};
  }

  lemma DrainKeeps(s: Service)
    requires Inv(s) && Enabled(s, DrainNext)
    ensures Inv(DrainStep(s))
  {
    DrainIsQuiet(s);
    DrainLifetimes(s);
  }

  lemma DrainIsQuiet(s: Service)
    requires Bookkeeping(s) && Leasing(s) && Enabled(s, DrainNext)
    ensures Bookkeeping(DrainStep(s)) && Leasing(DrainStep(s))
  {
    QuietKeeps(s, DrainStep(s));
  }

  lemma DrainLifetimes(s: Service)
    requires Lifetimes(s) && LeasesCounted(s.pools) && Housed(s.pools, s.home) && Identified(s.pools, s.workers)
    requires Enabled(s, DrainNext)
    ensures Lifetimes(DrainStep(s))
  {
    DrainHanded(s);
    DrainPools(s);
    DrainAdmin(s);
  }

  lemma DrainPools(s: Service)
    requires Counted(s.pools, s.execs) && Lifecycles(s.pools) && Ordered(s.pools, s.current) && LeasesCounted(s.pools)
    requires Drained(s.pools, s.current, s.ready, s.admin) && Enabled(s, DrainNext)
    ensures var t := DrainStep(s);
      Counted(t.pools, t.execs) && Lifecycles(t.pools) && Ordered(t.pools, t.current)
  {
    assert s.admin.todo[0] in s.admin.todo;
    assert Lifecycle(s.pools[s.admin.todo[0]]);
  }

  lemma DrainAdmin(s: Service)
    requires Drained(s.pools, s.current, s.ready, s.admin) && Candidates(s.pools, s.current, s.admin)
    requires Retired(s.pools, s.current, s.retired) && Ordered(s.pools, s.current) && Enabled(s, DrainNext)
    ensures var t := DrainStep(s);
      && Drained(t.pools, t.current, t.ready, t.admin) && Candidates(t.pools, t.current, t.admin)
      && Retired(t.pools, t.current, t.retired)
  {
    var p := s.admin.todo[0];
    assert p in s.admin.todo;
    assert forall q :: q in s.admin.todo <==> q == p || q in s.admin.todo[1..];
  }

  lemma DrainHanded(s: Service)
    requires HandedOverRight(s.pools, s.workers, s.handed) && Housed(s.pools, s.home) && Identified(s.pools, s.workers)
    requires Enabled(s, DrainNext)
    ensures HandedOverRight(DrainStep(s).pools, DrainStep(s).workers, DrainStep(s).handed)
  {
    var p := s.admin.todo[0];
    TouchHanded(s.pools, s.workers, s.handed, s.home, p, MarkDraining(s.pools[p]));
  }

  lemma CloseKeeps(s: Service)
    requires Inv(s) && Enabled(s, CloseService)
    ensures Inv(Step(s, CloseService))
  {
    var t := Step(s, CloseService);
    if s.ready {
      assert forall p :: p in t.admin.todo <==> p == s.current || p in s.retired;
    }
  }

  lemma HealthKeeps(s: Service)
    requires Inv(s) && Enabled(s, Health)
    ensures Inv(Step(s, Health))
  {
  }

  // ------------------------------------------------------------ replacing a dead worker

  lemma ReplaceKeeps(s: Service, id: Token, launched: Worker)
    requires Inv(s) && Enabled(s, ReplaceDead(id, launched))
    ensures Inv(ReplaceStep(s, id, launched))
  {
    var t := ReplaceStep(s, id, launched);
    if t.pools == s.pools {
      assert [launched][0] == launched;
      DiscardKeeps(s, t, [launched]);
    } else {
      ReplaceShape(s, id, launched);
      SameBookkeeping(s, t);
      ReplaceLeasing(s, id, launched);
      ReplaceLifetimes(s, id, launched);
    }
  }

  /** What a replacement writes: one free slot of the current pool now points at the new worker. */
  lemma ReplaceShape(s: Service, id: Token, launched: Worker)
    requires Identified(s.pools, s.workers) && s.current < |s.pools| && Enabled(s, ReplaceDead(id, launched))
    requires ReplaceStep(s, id, launched).pools != s.pools
    ensures var t := ReplaceStep(s, id, launched);
            && var p := s.pools[s.current];
            && |t.pools| == |s.pools|
            && var q := t.pools[s.current];
            && var i := FindWorker(p.slots, s.workers, id);
            && i < |p.slots| && p.slots[i].request.None?
            && t == s.(workers := s.workers + [launched], pools := s.pools[s.current := q],
                       handed := s.handed + {p.slots[i].worker}, home := s.home[|s.workers| := Place(s.current, i)])
            && q == p.(slots := p.slots[i := Slot(|s.workers|, None)])
            && Distinct(q.slots, t.workers, q.identity) && !p.closed
            && SameGenerations(s.pools, t.pools)
  {
    var p := s.pools[s.current];
    var workers := s.workers + [launched];
    assert WellIndexed(p.slots, workers) && Distinct(p.slots, workers, p.identity);
    SameFind(p.slots, s.workers, workers, id);
    ReplacementIsSafe(p, workers, id, |s.workers|);
  }

  lemma SameFind(slots: seq<Slot>, v: seq<Worker>, w: seq<Worker>, id: Token)
    requires WellIndexed(slots, v) && WellIndexed(slots, w)
    requires forall i :: 0 <= i < |slots| ==> v[slots[i].worker].id == w[slots[i].worker].id
    ensures FindWorker(slots, v, id) == FindWorker(slots, w, id)
  {
  }

  lemma ReplaceLeasing(s: Service, id: Token, launched: Worker)
    requires Leasing(s) && s.current < |s.pools| && Enabled(s, ReplaceDead(id, launched))
    requires ReplaceStep(s, id, launched).pools != s.pools
    ensures Leasing(ReplaceStep(s, id, launched))
  {
    var t := ReplaceStep(s, id, launched);
    ReplaceShape(s, id, launched);
    var mid := s.(workers := t.workers);
    assert [launched][0] == launched;
    MoreWorkers(s, mid, [launched]);
    var i := FindWorker(s.pools[s.current].slots, s.workers, id);
    SwapHeld(s.pools, s.execs, s.current, i, t.pools[s.current]);
    SwapHoused(s.pools, s.workers, s.home, s.current, i, t.pools[s.current]);
  }

  lemma SwapHeld(pools: seq<Pool>, execs: seq<Exec>, p: nat, i: nat, q: Pool)
    requires Held(pools, execs) && Accounted(pools, execs) && LeasesCounted(pools)
    requires p < |pools| && i < |pools[p].slots| && pools[p].slots[i].request.None?
    requires |q.slots| == |pools[p].slots| && q.slots == pools[p].slots[i := q.slots[i]] && q.slots[i].request.None?
      && q.active == pools[p].active
    ensures Held(pools[p := q], execs) && Accounted(pools[p := q], execs) && LeasesCounted(pools[p := q])
  {
    var pools' := pools[p := q];
    HoldersStay(pools, pools', execs, execs);
    forall d | 0 <= d < |execs| ensures HoldsIts(pools', execs[d]) {
      assert HoldsIts(pools, execs[d]);
    }
    assert LeasedSlots(q.slots) == LeasedSlots(pools[p].slots);
  }

  lemma SwapHoused(pools: seq<Pool>, workers: seq<Worker>, home: map<WorkerRef, Place>, p: nat, i: nat, q: Pool)
    requires Housed(pools, home) && HomesKnown(workers, home)
    requires p < |pools| && i < |pools[p].slots| && q.slots == pools[p].slots[i := Slot(|workers|, None)]
    ensures Housed(pools[p := q], home[|workers| := Place(p, i)])
  {
    var pools' := pools[p := q];
    var home' := home[|workers| := Place(p, i)];
    forall r, j | 0 <= r < |pools'| && 0 <= j < |pools'[r].slots|
      ensures pools'[r].slots[j].worker in home' && home'[pools'[r].slots[j].worker] == Place(r, j)
    {
      assert pools[r].slots[j].worker in home;
    }
  }

  lemma ReplaceLifetimes(s: Service, id: Token, launched: Worker)
    requires Lifetimes(s) && Identified(s.pools, s.workers) && Housed(s.pools, s.home)
      && Enabled(s, ReplaceDead(id, launched))
    requires ReplaceStep(s, id, launched).pools != s.pools
    ensures Lifetimes(ReplaceStep(s, id, launched))
  {
    ReplaceShape(s, id, launched);
    ReplaceHanded(s, id, launched);
    assert Lifecycle(s.pools[s.current]);
  }

  lemma ReplaceHanded(s: Service, id: Token, launched: Worker)
    requires HandedOverRight(s.pools, s.workers, s.handed) && Lifecycles(s.pools) && Ordered(s.pools, s.current)
    requires Identified(s.pools, s.workers) && Housed(s.pools, s.home) && Enabled(s, ReplaceDead(id, launched))
    requires Drained(s.pools, s.current, s.ready, s.admin) && ReplaceStep(s, id, launched).pools != s.pools
    ensures var t := ReplaceStep(s, id, launched); HandedOverRight(t.pools, t.workers, t.handed)
  {
    var t := ReplaceStep(s, id, launched);
    ReplaceShape(s, id, launched);
    var i := FindWorker(s.pools[s.current].slots, s.workers, id);
    var gone := s.pools[s.current].slots[i].worker;
    forall r, j | 0 <= r < |t.pools| && 0 <= j < |t.pools[r].slots|
      ensures t.pools[r].slots[j].worker in t.handed <==> t.pools[r].closed
    {
      assert WellIndexed(s.pools[r].slots, s.workers);
      assert s.home[s.pools[r].slots[j].worker] == Place(r, j) && s.home[gone] == Place(s.current, i);
    }
  }

  // ------------------------------------------------------------ any region

  lemma ExecutionStepKeeps(s: Service, a: Action)
    requires Inv(s) && Enabled(s, a)
    requires a.Admit? || a.Register? || a.Lease? || a.GiveUpLease? || a.Publish? || a.Dispatch? || a.Finish? || a.Pop?
      || a.GiveBack? || a.Drop?
    ensures Inv(Step(s, a))
  {
    match a
    case Admit(req) => AdmitKeeps(s, req);
    case Register(e) => RegisterKeeps(s, e);
    case Lease(e, i) => LeaseKeeps(s, e, i);
    case GiveUpLease(e) => GiveUpKeeps(s, e);
    case Publish(e) => PublishKeeps(s, e);
    case Dispatch(e) => DispatchKeeps(s, e);
    case Finish(e, reply) => FinishKeeps(s, e, reply);
    case Pop(e) => PopKeeps(s, e);
    case GiveBack(e) => GiveBackKeeps(s, e);
    case Drop(e) => DropKeeps(s, e, s.execs[e]);
  }

  lemma CandidateStepKeeps(s: Service, a: Action)
    requires Inv(s) && Enabled(s, a) && (a.BuildCandidate? || a.PublishCandidate? || a.AbandonCandidate?)
    ensures Inv(Step(s, a))
  {
    match a
    case BuildCandidate(identity, launched) => BuildKeeps(s, identity, launched);
    case PublishCandidate => PublishCandidateKeeps(s);
    case AbandonCandidate => AbandonKeeps(s);
  }

  lemma UpkeepStepKeeps(s: Service, a: Action)
    requires Inv(s) && Enabled(s, a) && (a.DrainNext? || a.ReplaceDead? || a.CloseService?)
    ensures Inv(Step(s, a))
  {
    match a
    case DrainNext => DrainKeeps(s);
    case ReplaceDead(id, launched) => ReplaceKeeps(s, id, launched);
    case CloseService => CloseKeeps(s);
  }

  lemma OutsideStepKeeps(s: Service, a: Action)
    requires Inv(s) && Enabled(s, a)
    requires a.AskCancel? || a.CancelAtWorker? || a.Health? || a.CloseWorker? || a.WorkerDies?
    ensures Inv(Step(s, a))
  {
    match a
    case AskCancel(rid, session, run) => AskCancelKeeps(s, rid, session, run);
    case CancelAtWorker(c, terminated) => CancelAtWorkerKeeps(s, c, terminated);
    case Health => HealthKeeps(s);
    case CloseWorker(w) => WorkerKeeps(s, w, s.workers[w].(closed := true));
    case WorkerDies(w) => WorkerKeeps(s, w, s.workers[w].(alive := false));
  }

  /** Every region, run by any thread in any interleaving, keeps the invariant. */
  lemma StepKeeps(s: Service, a: Action)
    requires Inv(s) && Enabled(s, a)
    ensures Inv(Step(s, a))
  {
    if a.AskCancel? || a.CancelAtWorker? || a.Health? || a.CloseWorker? || a.WorkerDies? {
      OutsideStepKeeps(s, a);
    } else if a.BuildCandidate? || a.PublishCandidate? || a.AbandonCandidate? {
      CandidateStepKeeps(s, a);
    } else if a.DrainNext? || a.ReplaceDead? || a.CloseService? {
      UpkeepStepKeeps(s, a);
    } else {
      ExecutionStepKeeps(s, a);
    }
  }
}
