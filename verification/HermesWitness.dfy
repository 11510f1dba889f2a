/** A run that shows why slot ownership is stated per execution and not per request id. */
module HermesWitness {
  import opened Basics
  import opened Traces
  import opened GenerationPool
  import opened HermesService
  import opened HermesInvariant
  import opened HermesTheorems
  import opened HermesProgress

  /** One open generation whose first worker is ready, for which the request is meant. */
  ghost predicate Serves(s: Service, req: Request)
  {
    && s.ready && s.current == 0 && |s.pools| == 1 && !s.pools[0].closed && !s.pools[0].draining
    && Meant(req, s.pools[0].identity)
    && |s.pools[0].slots| >= 1 && WellIndexed(s.pools[0].slots, s.workers)
    && s.workers[s.pools[0].slots[0].worker].Ready()
  }

  ghost function Entered(req: Request): Exec
  {
    Exec(req, 0, None, Registered, false, false, Undecided, None, false)
  }

  /** Admission and registration. */
  lemma Enters(s: Service, req: Request) returns (t: Service)
    requires Serves(s, req) && req.id !in s.active
    ensures Leads(Goes, s, [Admit(req)] + [Register(|s.execs|)], t) && Serves(t, req)
    ensures t.execs == s.execs + [Entered(req)] && t.active == s.active[req.id := |s.execs|]
    ensures t.pools[0].slots == s.pools[0].slots && t.workers == s.workers && t.cancels == s.cancels
    ensures t.pools[0] == s.pools[0].(references := s.pools[0].references + 1)
  {
    var e, mid := |s.execs|, Step(s, Admit(req));
    LeadsOne(Goes, s, Admit(req), mid);
    t := Step(mid, Register(e));
    LeadsOne(Goes, mid, Register(e), t);
    LeadsFurther(Goes, s, [Admit(req)], mid, [Register(e)], t);
  }

  /** The lease takes the first available slot. */
  lemma TakesSlot(s: Service, e: nat, i: nat, req: Request) returns (t: Service)
    requires Serves(s, req) && e < |s.execs| && s.execs[e] == Entered(req)
      && FirstAvailable(s.pools[0].slots, s.workers, i)
    ensures Leads(Goes, s, [Lease(e, i)], t) && Serves(t, req) && t.active == s.active && t.workers == s.workers
    ensures t.cancels == s.cancels && t.pools[0] == LeaseAt(s.pools[0], i, req.id)
    ensures var worker := s.pools[0].slots[i].worker;
            t.execs == s.execs[e := Entered(req).(pc := Leased, slot := Some(i), leasedWorker := Some(worker))]
    ensures t.pools[0].slots == s.pools[0].slots[i := s.pools[0].slots[i].(request := Some(req.id))]
  {
    t := Step(s, Lease(e, i));
    LeadsOne(Goes, s, Lease(e, i), t);
  }

  /** The only execution, holding slot 0. */
  ghost predicate Alone(s: Service, req: Request, pc: Pc)
  {
    && Serves(s, req) && |s.execs| == 1 && s.execs[0].req == req && s.execs[0].pool == 0 && s.execs[0].pc == pc
    && s.execs[0].slot == Some(0) && !s.execs[0].cancelRequested
    && |s.pools[0].slots| >= 2 && s.workers[s.pools[0].slots[1].worker].Ready()
    && s.pools[0].slots[0].request == Some(req.id) && s.pools[0].slots[1].request.None?
    && s.pools[0].slots[1].worker != s.pools[0].slots[0].worker
    && s.active == (if pc.Releasing? then map[] else map[req.id := 0])
    && (pc.Leased? || pc.Published? ==> s.workers[s.pools[0].slots[0].worker].serving.None?)
  }

  lemma Dispatches(s: Service, req: Request) returns (t: Service)
    requires Alone(s, req, Leased)
    ensures Leads(Goes, s, [Publish(0)] + [Dispatch(0)], t) && Alone(t, req, Dispatched)
  {
    var mid := Step(s, Publish(0));
    LeadsOne(Goes, s, Publish(0), mid);
    assert Alone(mid, req, Published);
    t := Step(mid, Dispatch(0));
    LeadsOne(Goes, mid, Dispatch(0), t);
    LeadsFurther(Goes, s, [Publish(0)], mid, [Dispatch(0)], t);
  }

  lemma LeavesActiveMap(s: Service, req: Request) returns (t: Service)
    requires Alone(s, req, Dispatched)
    ensures Leads(Goes, s, [Finish(0, None)] + [Pop(0)], t) && Alone(t, req, Releasing)
  {
    var mid := Step(s, Finish(0, None));
    LeadsOne(Goes, s, Finish(0, None), mid);
    assert Alone(mid, req, Popping);
    t := Step(mid, Pop(0));
    LeadsOne(Goes, mid, Pop(0), t);
    LeadsFurther(Goes, s, [Finish(0, None)], mid, [Pop(0)], t);
  }

  /** From the start: one request is served and has left the active map, its slot not yet given back. */
  lemma FirstRequest(s: Service, req: Request) returns (actions: seq<Action>, t: Service)
    requires Initial(s) && |s.workers| >= 2 && Meant(req, s.pools[0].identity)
    ensures Leads(Goes, s, actions, t) && Alone(t, req, Releasing)
  {
    assert Serves(s, req);
    var s1 := Enters(s, req);
    var s2 := TakesSlot(s1, 0, 0, req);
    assert Alone(s2, req, Leased);
    var s3 := Dispatches(s2, req);
    t := LeavesActiveMap(s3, req);
    var first := [Admit(req)] + [Register(0)];
    LeadsFurther(Goes, s, first, s1, [Lease(0, 0)], s2);
    LeadsFurther(Goes, s, first + [Lease(0, 0)], s2, [Publish(0)] + [Dispatch(0)], s3);
    LeadsFurther(Goes, s, first + [Lease(0, 0)] + ([Publish(0)] + [Dispatch(0)]), s3, [Finish(0, None)] + [Pop(0)], t);
    actions := first + [Lease(0, 0)] + ([Publish(0)] + [Dispatch(0)]) + ([Finish(0, None)] + [Pop(0)]);
  }

  /**
   A run from every fresh service with two workers after which two slots carry the same request id,
   held by two executions: the id was used again while the first slot was not yet back.
   */
  lemma TwoSlotsOneId(s: Service, req: Request) returns (actions: seq<Action>, t: Service)
    requires Initial(s) && |s.workers| >= 2 && Meant(req, s.pools[0].identity)
    ensures Leads(Goes, s, actions, t)
    ensures |t.pools| == 1 && |t.pools[0].slots| >= 2
    ensures t.pools[0].slots[0].request == t.pools[0].slots[1].request == Some(req.id)
    ensures HolderOf(t.execs, 0, 0, 0) && HolderOf(t.execs, 0, 1, 1)
  {
    var first, s1 := FirstRequest(s, req);
    var s2 := Enters(s1, req);
    t := TakesSlot(s2, 1, 1, req);
    LeadsFurther(Goes, s1, [Admit(req)] + [Register(1)], s2, [Lease(1, 1)], t);
    LeadsFurther(Goes, s, first, s1, [Admit(req)] + [Register(1)] + [Lease(1, 1)], t);
    actions := first + ([Admit(req)] + [Register(1)] + [Lease(1, 1)]);
  }
}
