/**
 One registry generation of the shared Hermes service: its worker slots, the two
 counters that keep it open, and the flags that drain and close it.

 The first half gives every locked region of the pool as a function on pool values.
 The second half is the mutable pool object; each of its methods is proved to
 compute exactly the corresponding function.
 */
module GenerationPool {
  import opened Basics

  type RequestId = Token

  /** Position of a worker in the table of all workers ever launched. */
  type WorkerRef = nat

  datatype Identity = Identity(generation: nat, schemaHash: Token, toolsets: Token)

  datatype Worker = Worker(
    id: Token,
    process: Token,
    registry: Identity,
    alive: bool,
    closed: bool,
    serving: Option<RequestId>,      // the request the worker process has registered
    terminated: Option<RequestId>)   // the request it served when termination was confirmed
  {
    predicate Ready() { alive && !closed }
  }

  datatype Slot = Slot(worker: WorkerRef, request: Option<RequestId>)

  /**
   `published` and `handoffs` are history: whether the generation was ever current,
   and how often its workers were handed over to be closed.
   */
  datatype Pool = Pool(
    identity: Identity,
    slots: seq<Slot>,
    references: int,
    active: int,
    draining: bool,
    closed: bool,
    published: bool,
    handoffs: nat)

  datatype PoolError =
    | GenerationClosed
    | ReferenceUnderflow
    | LeaseDrift
    | ActiveCandidate
    | UnknownWorker
    | LeasedWorker
    | ReadyWorker
    | DuplicateWorker
    | DuplicateProcess
    | ReplacementNotReady
    | ReplacementDrift

  ghost predicate WellIndexed(slots: seq<Slot>, workers: seq<Worker>)
  {
    forall i :: 0 <= i < |slots| ==> slots[i].worker < |workers|
  }

  ghost function SlotWorkers(slots: seq<Slot>): set<WorkerRef>
  {
    set i | 0 <= i < |slots| :: slots[i].worker
  }

  /** `[slot.worker for slot in self._slots]`. */
  function WorkersOf(slots: seq<Slot>): (r: seq<WorkerRef>)
    ensures |r| == |slots| && forall i :: 0 <= i < |slots| ==> r[i] == slots[i].worker
  {
    seq(|slots|, i requires 0 <= i < |slots| => slots[i].worker)
  }

  ghost function LeasedSlots(slots: seq<Slot>): set<nat>
  {
    set i: nat | i < |slots| && slots[i].request.Some?
  }

  predicate Closeable(p: Pool)
  {
    p.draining && !p.closed && p.references == 0 && p.active == 0
  }

  /** `_collect_closeable_locked`: the only way a published generation closes. */
  function Collect(p: Pool): Pool
  {
    if Closeable(p) then p.(closed := true, handoffs := p.handoffs + 1) else p
  }

  /** The workers a region hands over to be closed: all of them, at the moment it closes the pool. */
  ghost function Handed(before: Pool, after: Pool): seq<WorkerRef>
  {
    if !before.closed && after.closed then WorkersOf(after.slots) else []
  }

  ghost function HandedOver(before: Pool, after: Pool): set<WorkerRef>
  {
    if !before.closed && after.closed then SlotWorkers(after.slots) else {}
  }

  function Retain(p: Pool): Result<Pool, PoolError>
  {
    if p.closed then Err(GenerationClosed) else Ok(p.(references := p.references + 1))
  }

  function ReleaseReference(p: Pool): Result<Pool, PoolError>
  {
    if p.references <= 0 then Err(ReferenceUnderflow)
    else Ok(Collect(p.(references := p.references - 1)))
  }

  predicate Available(slot: Slot, workers: seq<Worker>)
    requires slot.worker < |workers|
  {
    slot.request.None? && workers[slot.worker].Ready()
  }

  /** The slot a lease scan settles on: the first one that is free and ready. */
  ghost predicate FirstAvailable(slots: seq<Slot>, workers: seq<Worker>, i: nat)
    requires WellIndexed(slots, workers)
  {
    && i < |slots|
    && Available(slots[i], workers)
    && forall j :: 0 <= j < i ==> !Available(slots[j], workers)
  }

  ghost predicate NoneAvailable(slots: seq<Slot>, workers: seq<Worker>)
    requires WellIndexed(slots, workers)
  {
    forall j :: 0 <= j < |slots| ==> !Available(slots[j], workers)
  }

  function LeaseAt(p: Pool, i: nat, rid: RequestId): Pool
    requires i < |p.slots|
  {
    p.(slots := p.slots[i := p.slots[i].(request := Some(rid))], active := p.active + 1)
  }

  function Release(p: Pool, i: nat, rid: RequestId): Result<Pool, PoolError>
    requires i < |p.slots|
  {
    if p.slots[i].request != Some(rid) then Err(LeaseDrift)
    else Ok(Collect(p.(slots := p.slots[i := p.slots[i].(request := None)], active := p.active - 1)))
  }

  function MarkDraining(p: Pool): Pool
  {
    Collect(p.(draining := true))
  }

  function CloseCandidate(p: Pool): Result<Pool, PoolError>
  {
    if p.active != 0 || p.references != 0 then Err(ActiveCandidate)
    else Ok(if p.closed then p else p.(closed := true, handoffs := p.handoffs + 1))
  }

  /** Position of the slot served by the worker with this id, or the slot count. */
  function FindWorker(slots: seq<Slot>, workers: seq<Worker>, id: Token): (i: nat)
    requires WellIndexed(slots, workers)
    ensures i <= |slots|
    ensures i < |slots| ==> workers[slots[i].worker].id == id
    ensures forall j :: 0 <= j < i ==> workers[slots[j].worker].id != id
  {
    if slots == [] then 0
    else if workers[slots[0].worker].id == id then 0
    else 1 + FindWorker(slots[1..], workers, id)
  }

  /** The other slots' ids and processes, scanned in order; the first clash decides the error. */
  function Clash(slots: seq<Slot>, workers: seq<Worker>, skip: nat, incoming: Worker, k: nat): (r: Option<PoolError>)
    requires WellIndexed(slots, workers) && k <= |slots|
    ensures r.None? ==> forall j :: k <= j < |slots| && j != skip ==>
              workers[slots[j].worker].id != incoming.id && workers[slots[j].worker].process != incoming.process
    decreases |slots| - k
  {
    if k == |slots| then None
    else if k != skip && workers[slots[k].worker].id == incoming.id then Some(DuplicateWorker)
    else if k != skip && workers[slots[k].worker].process == incoming.process then Some(DuplicateProcess)
    else Clash(slots, workers, skip, incoming, k + 1)
  }

  /** `replace_worker`: the pool after swapping in `workers[incoming]`, or the first check that refuses it. */
  function ReplaceWorker(p: Pool, workers: seq<Worker>, id: Token, incoming: WorkerRef): Result<Pool, PoolError>
    requires WellIndexed(p.slots, workers) && incoming < |workers|
  {
    var t := FindWorker(p.slots, workers, id);
    if p.closed then Err(GenerationClosed)
    else if t == |p.slots| then Err(UnknownWorker)
    else if p.slots[t].request.Some? then Err(LeasedWorker)
    else if workers[p.slots[t].worker].Ready() then Err(ReadyWorker)
    else
      match Clash(p.slots, workers, t, workers[incoming], 0)
      case Some(error) => Err(error)
      case None =>
        if !workers[incoming].Ready() then Err(ReplacementNotReady)
        else if workers[incoming].registry != p.identity then Err(ReplacementDrift)
        else Ok(p.(slots := p.slots[t := p.slots[t].(worker := incoming)]))
  }

  /** What every generation promises about its workers: one registry identity, no shared id or process. */
  ghost predicate Distinct(slots: seq<Slot>, workers: seq<Worker>, identity: Identity)
    requires WellIndexed(slots, workers)
  {
    && (forall i :: 0 <= i < |slots| ==> workers[slots[i].worker].registry == identity)
    && forall i, j :: 0 <= i < j < |slots| ==>
         && workers[slots[i].worker].id != workers[slots[j].worker].id
         && workers[slots[i].worker].process != workers[slots[j].worker].process
  }

  /** The validation loop of the pool constructor, as a property of the candidate workers. */
  ghost predicate Acceptable(candidates: seq<Worker>, identity: Identity)
  {
    && candidates != []
    && (forall i :: 0 <= i < |candidates| ==> candidates[i].Ready() && candidates[i].registry == identity)
    && forall i, j :: 0 <= i < j < |candidates| ==>
         candidates[i].id != candidates[j].id && candidates[i].process != candidates[j].process
  }

  /**
   A successful replacement touches exactly one slot, whose worker was dead and unleased,
   and keeps every promise about worker identities.
   */
  lemma ReplacementIsSafe(p: Pool, workers: seq<Worker>, id: Token, incoming: WorkerRef)
    requires WellIndexed(p.slots, workers) && incoming < |workers|
    requires Distinct(p.slots, workers, p.identity)
    requires ReplaceWorker(p, workers, id, incoming).Ok?
    ensures var q := ReplaceWorker(p, workers, id, incoming).value;
            var t := FindWorker(p.slots, workers, id);
            && !p.closed && t < |p.slots|
            && p.slots[t].request.None? && !workers[p.slots[t].worker].Ready()
            && workers[p.slots[t].worker].id == id
            && q == p.(slots := p.slots[t := Slot(incoming, None)])
            && workers[incoming].Ready()
            && Distinct(q.slots, workers, q.identity)
  {
    var t := FindWorker(p.slots, workers, id);
    assert Clash(p.slots, workers, t, workers[incoming], 0).None?;
  }

  /** Leasing adds one leased slot and counts it. */
  lemma LeaseCounts(slots: seq<Slot>, i: nat, rid: RequestId)
    requires i < |slots| && slots[i].request.None?
    ensures LeasedSlots(slots[i := slots[i].(request := Some(rid))]) == LeasedSlots(slots) + {i}
    ensures |LeasedSlots(slots[i := slots[i].(request := Some(rid))])| == |LeasedSlots(slots)| + 1
  {
    assert i !in LeasedSlots(slots);
  }

  lemma ReleaseCounts(slots: seq<Slot>, i: nat)
    requires i < |slots| && slots[i].request.Some?
    ensures LeasedSlots(slots[i := slots[i].(request := None)]) == LeasedSlots(slots) - {i}
    ensures |LeasedSlots(slots[i := slots[i].(request := None)])| == |LeasedSlots(slots)| - 1
  {
    assert i in LeasedSlots(slots);
  }

  /** The mutable pool. `workers` stands for the worker objects its slots point to. */
  class PoolObject {
    const identity: Identity
    var slots: seq<Slot>
    var references: int
    var active: int
    var draining: bool
    var closed: bool
    var published: bool
    var handoffs: nat

    ghost function View(): Pool
      reads this
    {
      Pool(identity, slots, references, active, draining, closed, published, handoffs)
    }

    constructor (identity: Identity, refs: seq<WorkerRef>)
      ensures View() == Pool(identity, seq(|refs|, i requires 0 <= i < |refs| => Slot(refs[i], None)), 0, 0, false,
        false, false, 0)
    {
      this.identity := identity;
      slots := seq(|refs|, i requires 0 <= i < |refs| => Slot(refs[i], None));
      references, active, draining, closed, published, handoffs := 0, 0, false, false, false, 0;
    }

    method CollectCloseableLocked() returns (handed: seq<WorkerRef>)
      modifies this
      ensures View() == Collect(old(View()))
      ensures handed == Handed(old(View()), View())
    {
      handed := [];
      if draining && !closed && references == 0 && active == 0 {
        closed := true;
        handoffs := handoffs + 1;
        handed := WorkersOf(slots);
      }
    }

    method RetainReference() returns (r: Result<(), PoolError>)
      modifies this
      ensures match Retain(old(View()))
              case Ok(p) => r == Ok(()) && View() == p
              case Err(e) => r == Err(e) && View() == old(View())
    {
      if closed { return Err(GenerationClosed); }
      references := references + 1;
      return Ok(());
    }

    method DropReference() returns (r: Result<seq<WorkerRef>, PoolError>)
      modifies this
      ensures match ReleaseReference(old(View()))
              case Ok(p) => r.Ok? && View() == p && r.value == Handed(old(View()), p)
              case Err(e) => r == Err(e) && View() == old(View())
    {
      if references <= 0 { return Err(ReferenceUnderflow); }
      references := references - 1;
      var handed := CollectCloseableLocked();
      return Ok(handed);
    }

    /** One pass of the lease loop: closed, leased, or nothing available yet. */
    method TryLease(workers: seq<Worker>, rid: RequestId) returns (r: Result<Option<nat>, PoolError>)
      requires WellIndexed(slots, workers)
      modifies this
      ensures old(closed) <==> r == Err(GenerationClosed)
      ensures r.Ok? && r.value.Some? ==>
                FirstAvailable(old(slots), workers, r.value.value) && View() == LeaseAt(old(View()), r.value.value, rid)
      ensures r.Ok? && r.value.None? ==> NoneAvailable(old(slots), workers)
      ensures !(r.Ok? && r.value.Some?) ==> View() == old(View())
    {
      if closed { return Err(GenerationClosed); }
      for i := 0 to |slots|
        invariant View() == old(View())
        invariant forall j :: 0 <= j < i ==> !Available(slots[j], workers)
      {
        if slots[i].request.None? && workers[slots[i].worker].Ready() {
          slots := slots[i := slots[i].(request := Some(rid))];
          active := active + 1;
          return Ok(Some(i));
        }
      }
      return Ok(None);
    }

    method ReleaseSlot(i: nat, rid: RequestId) returns (r: Result<seq<WorkerRef>, PoolError>)
      requires i < |slots|
      modifies this
      ensures match Release(old(View()), i, rid)
              case Ok(p) => r.Ok? && View() == p && r.value == Handed(old(View()), p)
              case Err(e) => r == Err(e) && View() == old(View())
    {
      if slots[i].request != Some(rid) { return Err(LeaseDrift); }
      slots := slots[i := slots[i].(request := None)];
      active := active - 1;
      var handed := CollectCloseableLocked();
      return Ok(handed);
    }

    method SwapWorker(workers: seq<Worker>, id: Token, incoming: WorkerRef) returns (r: Result<WorkerRef, PoolError>)
      requires WellIndexed(slots, workers) && incoming < |workers|
      modifies this
      ensures match ReplaceWorker(old(View()), workers, id, incoming)
              case Ok(p) => r == Ok(old(slots)[FindWorker(old(slots), workers, id)].worker) && View() == p
              case Err(e) => r == Err(e) && View() == old(View())
    {
      if closed { return Err(GenerationClosed); }
      var target := 0;
      while target < |slots| && workers[slots[target].worker].id != id
        invariant target <= |slots|
        invariant forall j :: 0 <= j < target ==> workers[slots[j].worker].id != id
      {
        target := target + 1;
      }
      assert target == FindWorker(slots, workers, id);
      if target == |slots| { return Err(UnknownWorker); }
      if slots[target].request.Some? { return Err(LeasedWorker); }
      if workers[slots[target].worker].Ready() { return Err(ReadyWorker); }
      var k := 0;
      while k < |slots|
        invariant k <= |slots|
        invariant Clash(slots, workers, target, workers[incoming], 0)
          == Clash(slots, workers, target, workers[incoming], k)
      {
        if k != target && workers[slots[k].worker].id == workers[incoming].id { return Err(DuplicateWorker); }
        if k != target && workers[slots[k].worker].process == workers[incoming].process { return Err(DuplicateProcess);
          }
        k := k + 1;
      }
      if !workers[incoming].Ready() { return Err(ReplacementNotReady); }
      if workers[incoming].registry != identity { return Err(ReplacementDrift); }
      var replaced := slots[target].worker;
      slots := slots[target := slots[target].(worker := incoming)];
      return Ok(replaced);
    }

    method StartDraining() returns (handed: seq<WorkerRef>)
      modifies this
      ensures View() == MarkDraining(old(View()))
      ensures handed == Handed(old(View()), View())
    {
      draining := true;
      handed := CollectCloseableLocked();
    }

    method AbandonCandidate() returns (r: Result<seq<WorkerRef>, PoolError>)
      modifies this
      ensures match CloseCandidate(old(View()))
              case Ok(p) => r.Ok? && View() == p && r.value == Handed(old(View()), p)
              case Err(e) => r == Err(e) && View() == old(View())
    {
      if active != 0 || references != 0 { return Err(ActiveCandidate); }
      var handed: seq<WorkerRef> := [];
      if !closed {
        closed := true;
        handoffs := handoffs + 1;
        handed := WorkersOf(slots);
      }
      return Ok(handed);
    }
  }

  /** The validation loop of the constructor decides exactly `Acceptable`. */
  method ValidateCandidates(candidates: seq<Worker>, identity: Identity) returns (ok: bool)
    ensures ok <==> Acceptable(candidates, identity)
  {
    if candidates == [] { return false; }
    var ids: set<Token> := {};
    var processes: set<Token> := {};
    for k := 0 to |candidates|
      invariant ids == set i | 0 <= i < k :: candidates[i].id
      invariant processes == set i | 0 <= i < k :: candidates[i].process
      invariant forall i :: 0 <= i < k ==> candidates[i].Ready() && candidates[i].registry == identity
      invariant forall i, j :: 0 <= i < j < k ==>
                  candidates[i].id != candidates[j].id && candidates[i].process != candidates[j].process
    {
      var worker := candidates[k];
      if worker.id in ids || worker.process in processes || !worker.Ready() || worker.registry != identity {
        return false;
      }
      ids := ids + {worker.id};
      processes := processes + {worker.process};
    }
    return true;
  }
}
