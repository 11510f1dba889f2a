/**
 Whom a confirmed cancellation hits. `cancel` gives up the active-request lock before it asks the worker,
 and the worker compares request ids only, so the execution it ends may be another one of the same id.
 */
module HermesCancel {
  import opened Basics
  import opened Traces
  import opened GenerationPool
  import opened HermesService
  import opened HermesInvariant
  import opened HermesTheorems
  import opened HermesProgress
  import opened HermesWitness

  /** Cancel `c` is about to have its termination confirmed by the worker it waits for. */
  ghost predicate Confirms(s: Service, c: nat)
  {
    && Enabled(s, CancelAtWorker(c, true))
    && CancelAtWorkerStep(s, c, true).cancels[c].AnsweredTrue()
  }

  // ------------------------------------------------------------ the exact condition

  /** A worker serves one execution at a time. */
  lemma ServedByOne(s: Service, w: WorkerRef, d: nat, e: nat)
    requires Held(s.pools, s.execs) && Exclusive(s.execs) && Housed(s.pools, s.home)
    requires ServedBy(s.execs, w, d) && ServedBy(s.execs, w, e)
    ensures d == e
  {
    assert HoldsIts(s.pools, s.execs[d]) && HoldsIts(s.pools, s.execs[e]);
    var x, y := s.execs[d], s.execs[e];
    assert s.home[w] == Place(x.pool, x.slot.value) && s.home[w] == Place(y.pool, y.slot.value);
  }

  /** Some execution of the cancelled id is served by the worker that is terminated. */
  lemma ConfirmationHits(s: Service, c: nat) returns (d: nat)
    requires Inv(s) && Confirms(s, c)
    ensures ServedBy(s.execs, s.cancels[c].answer.worker, d) && s.execs[d].req.id == s.cancels[c].rid
  {
    var w := s.cancels[c].answer.worker;
    d :| ServedBy(s.execs, w, d);
    assert ServesHolder(s.workers, s.execs[d]);
  }

  /**
   The execution that a confirmed cancel ends is the one it had found if and only if that one is still
   inside the worker exchange; otherwise it is another execution of the same id. With the id in use
   once it is always the right one.
   */
  lemma ConfirmationHitsTargetIff(s: Service, c: nat, d: nat)
    requires Inv(s) && Confirms(s, c) && ServedBy(s.execs, s.cancels[c].answer.worker, d)
    ensures s.cancels[c].target.Some? && s.cancels[c].target.value < |s.execs|
    ensures s.execs[d].req.id == s.cancels[c].rid
    ensures d == s.cancels[c].target.value <==> s.execs[s.cancels[c].target.value].pc.Dispatched?
    ensures (forall x: nat :: x < |s.execs| && s.execs[x].req.id == s.cancels[c].rid ==> x == s.cancels[c].target.value)
            ==> d == s.cancels[c].target.value
  {
    var k := s.cancels[c];
    var hit := ConfirmationHits(s, c);
    ServedByOne(s, k.answer.worker, d, hit);
    assert CancelSound(s.execs, s.workers, k);
    var e := k.target.value;
    assert Shape(s.execs[e]);
    if s.execs[e].pc.Dispatched? { ServedByOne(s, k.answer.worker, d, e); }
  }

  // ------------------------------------------------------------ over every run

  ghost predicate ConfirmedAt(states: seq<Service>, actions: seq<Action>, i: nat, c: nat)
    requires |states| == |actions| + 1
  {
    i < |actions| && actions[i] == CancelAtWorker(c, true) && Confirms(states[i], c)
  }

  /** Only the worker's own answer turns a waiting cancel into a confirmed one. */
  lemma OnlyWorkerConfirms(s: Service, a: Action, c: nat)
    requires Enabled(s, a) && c < |Step(s, a).cancels|
    requires Step(s, a).cancels[c].answer.WorkerAnswered? && Step(s, a).cancels[c].answer.confirmed
    ensures c < |s.cancels|
    ensures s.cancels[c] == Step(s, a).cancels[c] || (a == CancelAtWorker(c, true) && Confirms(s, c))
  {
    if a.CancelAtWorker? {
      AnswerTouchesOne(s, a.c, a.terminated);
    } else if a.AskCancel? {
      AskAddsOne(s, a);
    } else if a.Admit? || a.Register? || a.Lease? || a.GiveUpLease? || a.Publish? {
      EarlyLeavesCancels(s, a);
    } else if a.Dispatch? || a.Finish? || a.Pop? || a.GiveBack? || a.Drop? {
      UnwindingLeavesCancels(s, a);
    } else {
      LateLeavesCancels(s, a);
    }
  }

  lemma AnswerTouchesOne(s: Service, c: nat, terminated: bool)
    requires Enabled(s, CancelAtWorker(c, terminated))
    ensures var t := CancelAtWorkerStep(s, c, terminated);
      && |t.cancels| == |s.cancels| && (forall d :: 0 <= d < |s.cancels| && d != c ==> t.cancels[d] == s.cancels[d])
      && (t.cancels[c].AnsweredTrue() ==> terminated)
  {
  }

  lemma AskAddsOne(s: Service, a: Action)
    requires Enabled(s, a) && a.AskCancel?
    ensures var t := Step(s, a);
      && |t.cancels| == |s.cancels| + 1 && !t.cancels[|s.cancels|].answer.WorkerAnswered?
      && forall d :: 0 <= d < |s.cancels| ==> t.cancels[d] == s.cancels[d]
  {
  }

  lemma EarlyLeavesCancels(s: Service, a: Action)
    requires Enabled(s, a) && (a.Admit? || a.Register? || a.Lease? || a.GiveUpLease? || a.Publish?)
    ensures Step(s, a).cancels == s.cancels
  {
  }

  lemma UnwindingLeavesCancels(s: Service, a: Action)
    requires Enabled(s, a) && (a.Dispatch? || a.Finish? || a.Pop? || a.GiveBack? || a.Drop?)
    ensures Step(s, a).cancels == s.cancels
  {
  }

  lemma LateLeavesCancels(s: Service, a: Action)
    requires Enabled(s, a) && !a.CancelAtWorker? && !a.AskCancel?
    requires !a.Admit? && !a.Register? && !a.Lease? && !a.GiveUpLease? && !a.Publish?
    requires !a.Dispatch? && !a.Finish? && !a.Pop? && !a.GiveBack? && !a.Drop?
    ensures Step(s, a).cancels == s.cancels
  {
  }

  /** The step at which a cancel was confirmed. */
  lemma {:induction false} ConfirmationOf(states: seq<Service>, actions: seq<Action>, j: nat, c: nat) returns (i: nat)
    requires IsRun(states, actions) && j < |states| && c < |states[j].cancels|
    requires states[j].cancels[c].answer.WorkerAnswered? && states[j].cancels[c].answer.confirmed
    ensures i < j && ConfirmedAt(states, actions, i, c)
    ensures c < |states[i].cancels| && states[i].cancels[c].answer == AwaitingWorker(states[j].cancels[c].answer.worker)
    ensures states[i].cancels[c].target == states[j].cancels[c].target
      && states[i].cancels[c].rid == states[j].cancels[c].rid
  {
    assert j > 0;
    assert StepAt(states, actions, j - 1);
    OnlyWorkerConfirms(states[j - 1], actions[j - 1], c);
    if states[j - 1].cancels[c] == states[j].cancels[c] {
      i := ConfirmationOf(states, actions, j - 1, c);
    } else {
      i := j - 1;
    }
  }

  /**
   What True means, execution by execution. If no worker was involved the execution the cancel found is
   never dispatched. Otherwise there was a step at which the worker confirmed, and it then ended exactly
   one execution `d` of the cancelled id, which is the one the cancel had found if and only if that one
   was still inside the worker exchange.
   */
  lemma CancelTrueMeans(states: seq<Service>, actions: seq<Action>, j: nat, c: nat) returns (i: nat, d: nat)
    requires IsRun(states, actions) && j < |states| && c < |states[j].cancels| && states[j].cancels[c].AnsweredTrue()
    ensures states[j].cancels[c].target.Some? && states[j].cancels[c].target.value < |states[j].execs|
    ensures var k := states[j].cancels[c];
      if k.answer.CancelledEarly? then !states[j].execs[k.target.value].dispatched
      else
        && i < j && ConfirmedAt(states, actions, i, c)
        && k.target.value < |states[i].execs| && ServedBy(states[i].execs, k.answer.worker, d)
        && states[i].execs[d].req.id == k.rid
        && (d == k.target.value <==> states[i].execs[k.target.value].pc.Dispatched?)
  {
    CancelTrueIsFinal(states, actions, j, j, c);
    i, d := 0, 0;
    if states[j].cancels[c].answer.WorkerAnswered? {
      i := ConfirmationOf(states, actions, j, c);
      RunKeepsInvariant(states, actions, i);
      d := ConfirmationHits(states[i], c);
      ConfirmationHitsTargetIff(states[i], c, d);
    }
  }

  lemma RefusalChangesNothing(states: seq<Service>, actions: seq<Action>, i: nat)
    requires IsRun(states, actions) && i < |actions| && actions[i].AskCancel? && actions[i].rid in states[i].active
    requires var e := states[i].active[actions[i].rid];
      e < |states[i].execs| ==>
        states[i].execs[e].req.session != actions[i].session || states[i].execs[e].req.run != actions[i].run
    ensures var e := states[i].active[actions[i].rid];
      states[i + 1] == states[i].(cancels := states[i].cancels + [Cancel(actions[i].rid, Some(e), OwnershipMismatch)])
  {
    RunKeepsInvariant(states, actions, i);
    assert StepAt(states, actions, i);
    WrongOwnerChangesNothing(states[i], actions[i].rid, actions[i].session, actions[i].run);
  }

  /**
   A cancel refused for its owner stays refused, touches nothing but its own record, and never reaches a
   worker.
   */
  lemma RefusedCancelStaysRefused(states: seq<Service>, actions: seq<Action>, i: nat, j: nat)
    requires IsRun(states, actions) && i < j < |states| && actions[i].AskCancel? && actions[i].rid in states[i].active
    requires var e := states[i].active[actions[i].rid];
      e < |states[i].execs| ==>
        states[i].execs[e].req.session != actions[i].session || states[i].execs[e].req.run != actions[i].run
    ensures var e, c := states[i].active[actions[i].rid], |states[i].cancels|;
      && states[i + 1] == states[i].(cancels := states[i].cancels + [Cancel(actions[i].rid, Some(e),
        OwnershipMismatch)])
      && c < |states[j].cancels| && states[j].cancels[c] == Cancel(actions[i].rid, Some(e), OwnershipMismatch)
      && (j < |actions| && actions[j].CancelAtWorker? ==> actions[j].c != c)
  {
    RefusalChangesNothing(states, actions, i);
    RunMovesForward(states, actions, i + 1, j);
    var c := |states[i].cancels|;
    assert CancelLater(states[i + 1].cancels[c], states[j].cancels[c]);
    if j < |actions| { assert StepAt(states, actions, j); }
  }

  // ------------------------------------------------------------ a run that hits another session

  /** An execution inside the exchange with worker 0, behind slot 0. */
  ghost function Busy(req: Request): Exec
  {
    Exec(req, 0, Some(0), Dispatched, true, false, Undecided, Some(0), true)
  }

  /** The request can be served by worker 0, which is free. */
  ghost predicate Free(s: Service, req: Request)
  {
    && Serves(s, req) && req.id !in s.active && s.pools[0].slots[0] == Slot(0, None)
    && s.workers[0].serving.None?
  }

  ghost predicate Occupied(s: Service, req: Request, e: nat)
  {
    && Serves(s, req) && e < |s.execs| && s.execs[e] == Busy(req) && req.id in s.active && s.active[req.id] == e
    && s.pools[0].slots[0] == Slot(0, Some(req.id)) && s.pools[0].active > 0
    && s.workers[0].serving == Some(req.id)
  }

  /** From admission to the exchange. */
  lemma IsServed(s: Service, req: Request) returns (actions: seq<Action>, t: Service)
    requires Free(s, req) && s.pools[0].active >= 0
    ensures Leads(Goes, s, actions, t) && Occupied(t, req, |s.execs|)
    ensures t.execs == s.execs + [Busy(req)] && t.cancels == s.cancels && t.pools[0].identity == s.pools[0].identity
    ensures t.active == s.active[req.id := |s.execs|]
    ensures t.pools[0].references == s.pools[0].references + 1 && t.pools[0].active == s.pools[0].active + 1
  {
    var e := |s.execs|;
    var s1 := Enters(s, req);
    var s2 := TakesSlot(s1, e, 0, req);
    t := CallsWorker(s2, e, req);
    var first, last := [Admit(req)] + [Register(e)], [Publish(e)] + [Dispatch(e)];
    LeadsFurther(Goes, s, first, s1, [Lease(e, 0)], s2);
    LeadsFurther(Goes, s, first + [Lease(e, 0)], s2, last, t);
    actions := first + [Lease(e, 0)] + last;
  }

  /** Publishing the slot and registering with the worker. */
  lemma CallsWorker(s: Service, e: nat, req: Request) returns (t: Service)
    requires Serves(s, req) && e < |s.execs| && req.id in s.active && s.active[req.id] == e
    requires s.execs[e] == Entered(req).(pc := Leased, slot := Some(0), leasedWorker := Some(0))
    requires s.pools[0].slots[0] == Slot(0, Some(req.id)) && s.workers[0].serving.None?
    ensures Leads(Goes, s, [Publish(e)] + [Dispatch(e)], t)
    ensures t == s.(execs := s.execs[e := Busy(req)], workers := s.workers[0 := s.workers[0].(serving := Some(req.id))])
  {
    var mid := Step(s, Publish(e));
    LeadsOne(Goes, s, Publish(e), mid);
    t := Step(mid, Dispatch(e));
    LeadsOne(Goes, mid, Dispatch(e), t);
    LeadsFurther(Goes, s, [Publish(e)], mid, [Dispatch(e)], t);
  }

  /** The only execution is asked to stop, but its response is already on the way and it returns. */
  ghost function Gone(req: Request, reply: Response, identity: Identity): Exec
  {
    Busy(req).(cancelRequested := true, pc := Dropping, slot := None, outcome := Returned(identity, reply))
  }

  lemma IsAsked(s: Service, req: Request) returns (t: Service)
    requires Occupied(s, req, 0) && |s.execs| == 1 && s.cancels == []
    ensures Leads(Goes, s, [AskCancel(req.id, req.session, req.run)], t)
    ensures t == s.(execs := [Busy(req).(cancelRequested := true)],
                    cancels := [Cancel(req.id, Some(0), AwaitingWorker(0))])
  {
    t := Step(s, AskCancel(req.id, req.session, req.run));
    LeadsOne(Goes, s, AskCancel(req.id, req.session, req.run), t);
  }

  /** The only execution, inside the exchange or after it. */
  ghost predicate IsOf(x: Exec, req: Request)
  {
    x == Busy(req).(cancelRequested := x.cancelRequested, pc := x.pc, outcome := x.outcome)
  }

  /** The response is in and the request has left the active map. */
  lemma Answers(s: Service, req: Request, reply: Response) returns (t: Service)
    requires |s.execs| == 1 && IsOf(s.execs[0], req) && s.execs[0].pc.Dispatched? && s.active == map[req.id := 0]
    requires |s.pools| == 1 && |s.pools[0].slots| >= 1 && s.pools[0].slots[0].worker == 0 && |s.workers| >= 1
    requires s.workers[0].serving == Some(req.id)
    requires Meant(req, s.pools[0].identity) && Fits(req, reply)
    ensures Leads(Goes, s, [Finish(0, Some(reply))] + [Pop(0)], t)
    ensures t == s.(active := map[], workers := s.workers[0 := s.workers[0].(serving := None)],
                    execs := [s.execs[0].(pc := Releasing, outcome := Returned(s.pools[0].identity, reply))])
  {
    var mid := Step(s, Finish(0, Some(reply)));
    LeadsOne(Goes, s, Finish(0, Some(reply)), mid);
    t := Step(mid, Pop(0));
    LeadsOne(Goes, mid, Pop(0), t);
    LeadsFurther(Goes, s, [Finish(0, Some(reply))], mid, [Pop(0)], t);
    assert map[req.id := 0] - {req.id} == map[];
  }

  lemma FreesSlot(s: Service, req: Request) returns (t: Service)
    requires Serves(s, req) && s.pools[0].slots[0] == Slot(0, Some(req.id)) && s.pools[0].active > 0
    requires |s.execs| == 1 && IsOf(s.execs[0], req) && s.execs[0].pc.Releasing?
    ensures Leads(Goes, s, [GiveBack(0)], t) && Serves(t, req) && t.pools[0].slots[0] == Slot(0, None)
    ensures t.execs == [s.execs[0].(pc := Dropping, slot := None)] && t.pools[0].identity == s.pools[0].identity
    ensures t.active == s.active && t.workers == s.workers && t.cancels == s.cancels
    ensures t.pools[0].active == s.pools[0].active - 1 && t.pools[0].references == s.pools[0].references
  {
    t := Step(s, GiveBack(0));
    LeadsOne(Goes, s, GiveBack(0), t);
  }

  /** A request is served and asked to stop; it returns normally and gives its slot back before the worker is asked. */
  lemma ReturnsFirst(s: Service, req: Request, reply: Response) returns (actions: seq<Action>, t: Service)
    requires Initial(s) && Meant(req, s.pools[0].identity) && Fits(req, reply)
    ensures Leads(Goes, s, actions, t) && Serves(t, req) && t.pools[0].slots[0] == Slot(0, None) && t.active == map[]
    ensures t.execs == [Gone(req, reply, s.pools[0].identity)]
      && t.cancels == [Cancel(req.id, Some(0), AwaitingWorker(0))]
    ensures t.workers[0].serving.None? && t.pools[0].active >= 0 && t.pools[0].identity == s.pools[0].identity
  {
    var first, s1 := IsServed(s, req);
    assert s1.active == map[req.id := 0];
    var ask := AskCancel(req.id, req.session, req.run);
    var s2 := IsAsked(s1, req);
    var s3 := Answers(s2, req, reply);
    t := FreesSlot(s3, req);
    var answer := [Finish(0, Some(reply))] + [Pop(0)];
    LeadsFurther(Goes, s, first, s1, [ask], s2);
    LeadsFurther(Goes, s, first + [ask], s2, answer, s3);
    LeadsFurther(Goes, s, first + [ask] + answer, s3, [GiveBack(0)], t);
    actions := first + [ask] + answer + [GiveBack(0)];
  }

  /**
   From every fresh service: session A's cancel reaches the worker after A's request has returned, when
   the worker serves session B's request of the same id. The cancel answers True and the worker is
   terminated under session B.
   */
  lemma CancelHitsOtherSession(s: Service, a: Request, b: Request, reply: Response)
    returns (actions: seq<Action>, t: Service)
    requires Initial(s) && a.id == b.id && a.session != b.session
    requires Meant(a, s.pools[0].identity) && Meant(b, s.pools[0].identity)
    requires Fits(a, reply)
    ensures Leads(Goes, s, actions, t)
    ensures |t.execs| == 2 && t.execs[0].req == a && t.execs[0].outcome.Returned?
    ensures |t.cancels| == 1 && t.cancels[0].target == Some(0) && t.cancels[0].AnsweredTrue()
    ensures ServedBy(t.execs, 0, 1) && t.execs[1].req == b
    ensures |t.workers| > 0 && t.workers[0].closed && t.workers[0].terminated == Some(a.id)
      && t.workers[0].serving == Some(b.id)
  {
    var first, s1 := ReturnsFirst(s, a, reply);
    var second, s2 := IsServed(s1, b);
    t := Step(s2, CancelAtWorker(0, true));
    LeadsOne(Goes, s2, CancelAtWorker(0, true), t);
    LeadsFurther(Goes, s, first, s1, second, s2);
    LeadsFurther(Goes, s, first + second, s2, [CancelAtWorker(0, true)], t);
    actions := first + second + [CancelAtWorker(0, true)];
  }
}
