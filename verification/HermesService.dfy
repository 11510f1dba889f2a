/**
 The shared Hermes service as a state machine: every action is one region that the
 service runs under its state lock, its active-request lock, a pool's condition or a
 worker's own lock. Any number of executions, cancellations and administrative calls
 interleave; what the outside world decides (worker deaths, responses, timeouts,
 termination reports) is a parameter of the action.
 */
module HermesService {
  import opened Basics
  import opened GenerationPool

  datatype Request = Request(
    id: RequestId,
    session: Token,
    run: Token,
    operation: Token,
    expectedGeneration: nat,
    expectedHash: Token)

  datatype Response = Response(ok: bool, operation: Token, generation: nat, schemaHash: Token)

  /** Program counter of one call of `execute`. */
  datatype Pc =
    | Retained     // pinned to a generation, not yet in the active map
    | Registered   // in the active map, waiting for a slot
    | Leased       // holds a slot that nobody else can see yet
    | Published    // slot visible to cancel; the next step calls the worker
    | Dispatched   // the worker has registered the request
    | Popping      // unwinding: about to leave the active map
    | Releasing    // unwinding: about to give the slot back
    | Dropping     // unwinding: about to drop the reference
    | Done

  datatype Outcome =
    | Undecided
    | NotReady
    | StaleGeneration
    | StaleSchema
    | DuplicateRequest
    | LeaseTimeout
    | CancelledBeforeDispatch
    | WorkerNotReady
    | ExchangeFailed
    | ResponseDrift
    | Returned(identity: Identity, response: Response)
    // The errors that the invariant excludes.
    | MetClosedGeneration
    | Underflow
    | Drift
    | OwnershipDisappeared
    | WorkerAlreadyServing

  predicate Impossible(o: Outcome)
  {
    o.MetClosedGeneration? || o.Underflow? || o.Drift? || o.OwnershipDisappeared? || o.WorkerAlreadyServing?
  }

  /**
   One call of `execute` together with its `_ActiveRequest`. `leasedWorker` and
   `dispatched` are history: the worker behind the slot it leased, and whether it ever
   called that worker.
   */
  datatype Exec = Exec(
    req: Request,
    pool: nat,
    slot: Option<nat>,
    pc: Pc,
    slotVisible: bool,
    cancelRequested: bool,
    outcome: Outcome,
    leasedWorker: Option<WorkerRef>,
    dispatched: bool)

  datatype CancelAnswer =
    | NoSuchRequest                 // False
    | OwnershipMismatch             // error
    | CancelledEarly                // True, no worker involved
    | AwaitingWorker(worker: WorkerRef)
    | WorkerAnswered(worker: WorkerRef, confirmed: bool)

  /** One call of `cancel`; `target` is the execution it found. */
  datatype Cancel = Cancel(rid: RequestId, target: Option<nat>, answer: CancelAnswer)
  {
    /** The call has returned True. */
    predicate AnsweredTrue()
    {
      answer.CancelledEarly? || (answer.WorkerAnswered? && answer.confirmed)
    }
  }

  /** Where the holder of the administration lock stands. */
  datatype Admin =
    | Idle
    | Candidate(pool: nat)
    | Abandoning(pool: nat)
    | Draining(todo: seq<nat>)

  /** Where a worker was installed. */
  datatype Place = Place(pool: nat, slot: nat)

  /**
   `handed` is every worker that has been handed over to be closed; `home` is history,
   the place each worker was installed at.
   */
  datatype Service = Service(
    ready: bool,
    current: nat,
    retired: seq<nat>,
    pools: seq<Pool>,
    workers: seq<Worker>,
    execs: seq<Exec>,
    active: map<RequestId, nat>,
    cancels: seq<Cancel>,
    admin: Admin,
    handed: set<WorkerRef>,
    home: map<WorkerRef, Place>)

  datatype Action =
    | Admit(req: Request)
    | Register(e: nat)
    | Lease(e: nat, i: nat)
    | GiveUpLease(e: nat)
    | Publish(e: nat)
    | Dispatch(e: nat)
    | Finish(e: nat, reply: Option<Response>)
    | Pop(e: nat)
    | GiveBack(e: nat)
    | Drop(e: nat)
    | AskCancel(rid: RequestId, session: Token, run: Token)
    | CancelAtWorker(c: nat, terminated: bool)
    | BuildCandidate(identity: Identity, launched: seq<Worker>)
    | PublishCandidate
    | AbandonCandidate
    | DrainNext
    | ReplaceDead(id: Token, replacement: Worker)
    | CloseService
    | Health
    | CloseWorker(w: WorkerRef)
    | WorkerDies(w: WorkerRef)

  /** A worker as its factory returns it: nothing served, nothing closed. */
  predicate Launched(w: Worker)
  {
    !w.closed && w.serving.None? && w.terminated.None?
  }

  function FreshSlots(first: nat, count: nat): (r: seq<Slot>)
    ensures |r| == count && forall i :: 0 <= i < count ==> r[i] == Slot(first + i, None)
  {
    seq(count, i requires 0 <= i < count => Slot(first + i, None))
  }

  /** Homes of the workers of a new generation. */
  ghost function FreshHomes(first: nat, count: nat, pool: nat): (r: map<WorkerRef, Place>)
    ensures r.Keys == SlotWorkers(FreshSlots(first, count))
    ensures forall w :: w in r ==> first <= w < first + count && r[w] == Place(pool, w - first)
  {
    var slots := FreshSlots(first, count);
    assert forall i :: 0 <= i < count ==> slots[i].worker == first + i && slots[i].worker in SlotWorkers(slots);
    map w | w in SlotWorkers(slots) :: Place(pool, w - first)
  }

  /** `_verify_request_identity`. */
  function IdentityRefusal(req: Request, identity: Identity): Option<Outcome>
  {
    if req.expectedGeneration != identity.generation then Some(StaleGeneration)
    else if req.expectedHash != identity.schemaHash then Some(StaleSchema)
    else None
  }

  /** The request names this registry identity. */
  predicate Meant(req: Request, identity: Identity)
  {
    req.expectedGeneration == identity.generation && req.expectedHash == identity.schemaHash
  }

  /** The response is not marked ok, or names what the request named. */
  predicate Fits(req: Request, response: Response)
  {
    response.ok ==>
      && response.operation == req.operation
      && response.generation == req.expectedGeneration && response.schemaHash == req.expectedHash
  }

  /** `_validate_worker_response`, and what `execute` then returns or raises. */
  function Verdict(req: Request, identity: Identity, reply: Option<Response>): Outcome
  {
    match reply
    case None => ExchangeFailed
    case Some(response) =>
      if response.ok && (response.operation != req.operation || response.generation != identity.generation
                         || response.schemaHash != identity.schemaHash)
      then ResponseDrift
      else Returned(identity, response)
  }

  ghost predicate At(s: Service, e: nat, pc: Pc)
  {
    e < |s.execs| && s.execs[e].pc == pc && s.execs[e].pool < |s.pools|
  }

  /** What each region may assume about the thread that runs it. */
  ghost predicate Enabled(s: Service, a: Action)
  {
    match a
    case Admit(_) => s.current < |s.pools|
    case Register(e) => At(s, e, Retained)
    case Lease(e, i) =>
      && At(s, e, Registered)
      && var p := s.pools[s.execs[e].pool];
      && WellIndexed(p.slots, s.workers)
      && !p.closed
      && FirstAvailable(p.slots, s.workers, i)
    case GiveUpLease(e) =>
      && At(s, e, Registered)
      && var p := s.pools[s.execs[e].pool];
      && WellIndexed(p.slots, s.workers)
      && (p.closed || NoneAvailable(p.slots, s.workers))
    case Publish(e) => At(s, e, Leased)
    case Dispatch(e) => At(s, e, Published) && HasSlot(s, e)
    case Finish(e, _) => At(s, e, Dispatched) && HasSlot(s, e)
    case Pop(e) => At(s, e, Popping)
    case GiveBack(e) => At(s, e, Releasing) && (s.execs[e].slot.Some? ==> HasSlot(s, e))
    case Drop(e) => At(s, e, Dropping)
    case AskCancel(rid, _, _) =>
      rid in s.active ==>
        && s.active[rid] < |s.execs|
        && (s.execs[s.active[rid]].slotVisible ==>
              s.execs[s.active[rid]].pool < |s.pools| && HasSlot(s, s.active[rid]))
    case CancelAtWorker(c, _) =>
      c < |s.cancels| && s.cancels[c].answer.AwaitingWorker? && s.cancels[c].answer.worker < |s.workers|
    case BuildCandidate(_, launched) => s.admin.Idle? && forall i :: 0 <= i < |launched| ==> Launched(launched[i])
    case PublishCandidate => s.admin.Candidate? && s.admin.pool < |s.pools| && s.current < |s.pools|
    case AbandonCandidate => s.admin.Abandoning? && s.admin.pool < |s.pools|
    case DrainNext => s.admin.Draining? && s.admin.todo != [] && s.admin.todo[0] < |s.pools|
    case ReplaceDead(_, launched) =>
      s.admin.Idle? && Launched(launched) && s.current < |s.pools| && WellIndexed(s.pools[s.current].slots, s.workers)
    case CloseService => s.admin.Idle?
    case Health => forall i :: 0 <= i < |s.retired| ==> s.retired[i] < |s.pools|
    case CloseWorker(w) => w in s.handed && w < |s.workers|
    case WorkerDies(w) => w < |s.workers|
  }

  ghost predicate HasSlot(s: Service, e: nat)
    requires e < |s.execs| && s.execs[e].pool < |s.pools|
  {
    var x := s.execs[e];
    x.slot.Some? && x.slot.value < |s.pools[x.pool].slots| && s.pools[x.pool].slots[x.slot.value].worker < |s.workers|
  }

  ghost function WorkerOf(s: Service, e: nat): WorkerRef
    requires e < |s.execs| && s.execs[e].pool < |s.pools| && HasSlot(s, e)
  {
    s.pools[s.execs[e].pool].slots[s.execs[e].slot.value].worker
  }

  ghost function SetExec(s: Service, e: nat, x: Exec): Service
    requires e < |s.execs|
  {
    s.(execs := s.execs[e := x])
  }

  /** Replace pool `p`, handing its workers over if this region closed it. */
  ghost function SetPool(s: Service, p: nat, q: Pool): Service
    requires p < |s.pools|
  {
    s.(pools := s.pools[p := q], handed := s.handed + HandedOver(s.pools[p], q))
  }

  /** The state-lock region of `execute`. A refused call leaves a finished record and nothing else. */
  ghost function AdmitStep(s: Service, req: Request): Service
    requires s.current < |s.pools|
  {
    var p := s.pools[s.current];
    var x := Exec(req, s.current, None, Done, false, false, Undecided, None, false);
    if !s.ready then s.(execs := s.execs + [x.(outcome := NotReady)])
    else match IdentityRefusal(req, p.identity)
      case Some(refusal) => s.(execs := s.execs + [x.(outcome := refusal)])
      case None =>
        match Retain(p)
        case Err(_) => s.(execs := s.execs + [x.(outcome := MetClosedGeneration)])
        case Ok(q) => SetPool(s.(execs := s.execs + [x.(pc := Retained)]), s.current, q)
  }

  ghost function DropReferenceOf(s: Service, e: nat, x: Exec): Service
    requires e < |s.execs| && s.execs[e].pool < |s.pools|
  {
    match ReleaseReference(s.pools[s.execs[e].pool])
    case Err(_) => SetExec(s, e, x.(pc := Done, outcome := Underflow))
    case Ok(q) => SetPool(SetExec(s, e, x.(pc := Done)), s.execs[e].pool, q)
  }

  ghost function RegisterStep(s: Service, e: nat): Service
    requires At(s, e, Retained)
  {
    var x := s.execs[e];
    if x.req.id in s.active then DropReferenceOf(s, e, x.(outcome := DuplicateRequest))
    else SetExec(s, e, x.(pc := Registered)).(active := s.active[x.req.id := e])
  }

  ghost function LeaseStep(s: Service, e: nat, i: nat): Service
    requires Enabled(s, Lease(e, i))
  {
    var x := s.execs[e];
    var p := s.pools[x.pool];
    SetPool(SetExec(s, e, x.(pc := Leased, slot := Some(i), leasedWorker := Some(p.slots[i].worker))),
            x.pool, LeaseAt(p, i, x.req.id))
  }

  ghost function PublishStep(s: Service, e: nat): Service
    requires At(s, e, Leased)
  {
    var x := s.execs[e];
    if !(x.req.id in s.active && s.active[x.req.id] == e) then
      SetExec(s, e, x.(pc := Popping, outcome := OwnershipDisappeared))
    else if x.cancelRequested then
      SetExec(s, e, x.(pc := Popping, slotVisible := true, outcome := CancelledBeforeDispatch))
    else
      SetExec(s, e, x.(pc := Published, slotVisible := true))
  }

  /** The first locked region of the worker's `dispatch`. */
  ghost function DispatchStep(s: Service, e: nat): Service
    requires Enabled(s, Dispatch(e))
  {
    var x := s.execs[e].(dispatched := true);
    var w := WorkerOf(s, e);
    if !s.workers[w].Ready() then SetExec(s, e, x.(pc := Popping, outcome := WorkerNotReady))
    else if s.workers[w].serving.Some? then SetExec(s, e, x.(pc := Popping, outcome := WorkerAlreadyServing))
    else SetExec(s, e, x.(pc := Dispatched)).(workers := s.workers[w := s.workers[w].(serving := Some(x.req.id))])
  }

  /** The exchange is over: the worker forgets the request, the response is validated. */
  ghost function FinishStep(s: Service, e: nat, reply: Option<Response>): Service
    requires Enabled(s, Finish(e, reply))
  {
    var x := s.execs[e];
    var w := WorkerOf(s, e);
    var worker := s.workers[w];
    var forgotten := if worker.serving == Some(x.req.id) then worker.(serving := None) else worker;
    SetExec(s, e, x.(pc := Popping, outcome := Verdict(x.req, s.pools[x.pool].identity, reply)))
    .(workers := s.workers[w := forgotten])
  }

  ghost function PopStep(s: Service, e: nat): Service
    requires At(s, e, Popping)
  {
    var x := s.execs[e];
    var s' := SetExec(s, e, x.(pc := Releasing));
    if x.req.id in s.active && s.active[x.req.id] == e then s'.(active := s.active - {x.req.id}) else s'
  }

  /** A lease error propagates past the reference release, exactly as the source would. */
  ghost function GiveBackStep(s: Service, e: nat): Service
    requires Enabled(s, GiveBack(e))
  {
    var x := s.execs[e];
    if x.slot.None? then SetExec(s, e, x.(pc := Dropping))
    else match Release(s.pools[x.pool], x.slot.value, x.req.id)
      case Err(_) => SetExec(s, e, x.(pc := Done, outcome := Drift))
      case Ok(q) => SetPool(SetExec(s, e, x.(pc := Dropping, slot := None)), x.pool, q)
  }

  /** The active-lock region of `cancel`. */
  ghost function AskCancelStep(s: Service, rid: RequestId, session: Token, run: Token): Service
    requires Enabled(s, AskCancel(rid, session, run))
  {
    if rid !in s.active then s.(cancels := s.cancels + [Cancel(rid, None, NoSuchRequest)])
    else
      var e := s.active[rid];
      var x := s.execs[e];
      if x.req.session != session || x.req.run != run then
        s.(cancels := s.cancels + [Cancel(rid, Some(e), OwnershipMismatch)])
      else
        var answer := if x.slotVisible then AwaitingWorker(WorkerOf(s, e)) else CancelledEarly;
        SetExec(s, e, x.(cancelRequested := true)).(cancels := s.cancels + [Cancel(rid, Some(e), answer)])
  }

  /** The locked region of the worker's `cancel`; `terminated` is the termination report. */
  ghost function CancelAtWorkerStep(s: Service, c: nat, terminated: bool): Service
    requires Enabled(s, CancelAtWorker(c, terminated))
  {
    var k := s.cancels[c];
    var w := k.answer.worker;
    var worker := s.workers[w];
    if worker.closed || worker.serving != Some(k.rid) then
      s.(cancels := s.cancels[c := k.(answer := WorkerAnswered(w, false))])
    else if !worker.alive then
      s.(workers := s.workers[w := worker.(closed := true)],
         cancels := s.cancels[c := k.(answer := WorkerAnswered(w, false))])
    else
      s.(workers := s.workers[w := worker.(closed := terminated,
                                           terminated := if terminated then Some(k.rid) else worker.terminated)],
         cancels := s.cancels[c := k.(answer := WorkerAnswered(w, terminated))])
  }

  /** The pool constructor inside `reload_registry`; a refused candidate's workers are closed. */
  ghost function BuildStep(s: Service, identity: Identity, launched: seq<Worker>): Service
    requires Enabled(s, BuildCandidate(identity, launched))
  {
    var first := |s.workers|;
    var s' := s.(workers := s.workers + launched);
    if Acceptable(launched, identity) then
      s'.(pools := s.pools + [Pool(identity, FreshSlots(first, |launched|), 0, 0, false, false, false, 0)],
          admin := Candidate(|s.pools|),
          home := s.home + FreshHomes(first, |launched|, |s.pools|))
    else
      s'.(handed := s.handed + SlotWorkers(FreshSlots(first, |launched|)))
  }

  ghost function PublishCandidateStep(s: Service): Service
    requires Enabled(s, PublishCandidate)
  {
    var c := s.admin.pool;
    if !s.ready || s.pools[c].identity.generation <= s.pools[s.current].identity.generation then
      s.(admin := Abandoning(c))
    else
      s.(pools := s.pools[c := s.pools[c].(published := true)],
         current := c,
         retired := s.retired + [s.current],
         admin := Draining([s.current]))
  }

  ghost function AbandonStep(s: Service): Service
    requires Enabled(s, AbandonCandidate)
  {
    match CloseCandidate(s.pools[s.admin.pool])
    case Err(_) => s.(admin := Idle)
    case Ok(q) => SetPool(s, s.admin.pool, q).(admin := Idle)
  }

  ghost function DrainStep(s: Service): Service
    requires Enabled(s, DrainNext)
  {
    var rest := s.admin.todo[1..];
    SetPool(s, s.admin.todo[0], MarkDraining(s.pools[s.admin.todo[0]]))
    .(admin := if rest == [] then Idle else Draining(rest))
  }

  /** `replace_worker`: the outgoing worker, or a refused replacement, is closed afterwards. */
  ghost function ReplaceStep(s: Service, id: Token, launched: Worker): Service
    requires Enabled(s, ReplaceDead(id, launched))
  {
    var incoming := |s.workers|;
    var workers := s.workers + [launched];
    var p := s.pools[s.current];
    assert WellIndexed(p.slots, workers);
    if !s.ready then s.(workers := workers, handed := s.handed + {incoming})
    else match ReplaceWorker(p, workers, id, incoming)
      case Err(_) => s.(workers := workers, handed := s.handed + {incoming})
      case Ok(q) =>
        var t := FindWorker(p.slots, workers, id);
        s.(workers := workers,
           pools := s.pools[s.current := q],
           handed := s.handed + {p.slots[t].worker},
           home := s.home[incoming := Place(s.current, t)])
  }

  function OpenOnly(pools: seq<Pool>, retired: seq<nat>): (r: seq<nat>)
    requires forall i :: 0 <= i < |retired| ==> retired[i] < |pools|
    ensures forall p :: p in r <==> p in retired && !pools[p].closed
  {
    if retired == [] then []
    else
      var rest := OpenOnly(pools, retired[1..]);
      if pools[retired[0]].closed then rest else [retired[0]] + rest
  }

  ghost function Step(s: Service, a: Action): Service
    requires Enabled(s, a)
  {
    match a
    case Admit(req) => AdmitStep(s, req)
    case Register(e) => RegisterStep(s, e)
    case Lease(e, i) => LeaseStep(s, e, i)
    case GiveUpLease(e) =>
      SetExec(s, e, s.execs[e].(pc := Popping,
                                outcome := if s.pools[s.execs[e].pool].closed then MetClosedGeneration
                                  else LeaseTimeout))
    case Publish(e) => PublishStep(s, e)
    case Dispatch(e) => DispatchStep(s, e)
    case Finish(e, reply) => FinishStep(s, e, reply)
    case Pop(e) => PopStep(s, e)
    case GiveBack(e) => GiveBackStep(s, e)
    case Drop(e) => DropReferenceOf(s, e, s.execs[e])
    case AskCancel(rid, session, run) => AskCancelStep(s, rid, session, run)
    case CancelAtWorker(c, terminated) => CancelAtWorkerStep(s, c, terminated)
    case BuildCandidate(identity, launched) => BuildStep(s, identity, launched)
    case PublishCandidate => PublishCandidateStep(s)
    case AbandonCandidate => AbandonStep(s)
    case DrainNext => DrainStep(s)
    case ReplaceDead(id, launched) => ReplaceStep(s, id, launched)
    case CloseService =>
      if s.ready then s.(ready := false, admin := Draining([s.current] + s.retired)) else s
    case Health => s.(retired := OpenOnly(s.pools, s.retired))
    case CloseWorker(w) => s.(workers := s.workers[w := s.workers[w].(closed := true)])
    case WorkerDies(w) => s.(workers := s.workers[w := s.workers[w].(alive := false)])
  }

  /** Where an action leads, if it is enabled. */
  ghost function Goes(s: Service, a: Action): Option<Service>
  {
    if Enabled(s, a) then Some(Step(s, a)) else None
  }

  /** A service as its constructor leaves it: one published generation, nothing running. */
  ghost predicate Initial(s: Service)
  {
    && s.ready && s.current == 0 && s.retired == [] && s.execs == [] && s.active == map[] && s.cancels == []
    && s.admin.Idle? && s.handed == {}
    && |s.pools| == 1
    && Acceptable(s.workers, s.pools[0].identity)
    && (forall w :: 0 <= w < |s.workers| ==> Launched(s.workers[w]))
    && s.pools[0] == Pool(s.pools[0].identity, FreshSlots(0, |s.workers|), 0, 0, false, false, true, 0)
    && s.home == FreshHomes(0, |s.workers|, 0)
  }
}
