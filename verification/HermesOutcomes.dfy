/** What each region of the Hermes service answers, in terms of the fields it looks at, on every reachable state. */
module HermesOutcomes {
  import opened Basics
  import opened Traces
  import opened GenerationPool
  import opened HermesService
  import opened HermesInvariant
  import opened HermesPreservation
  import opened HermesTheorems
  import opened HermesProgress
  import opened HermesWitness
  import opened HermesCancel

  // ------------------------------------------------------------ execute

  /** A call is admitted exactly when the service is ready and its current generation is the expected one. */
  lemma AdmissionAnswer(s: Service, req: Request)
    requires Inv(s) && Enabled(s, Admit(req))
    ensures var t, now := Step(s, Admit(req)), s.pools[s.current].identity;
      && |t.execs| == |s.execs| + 1 && t.execs[..|s.execs|] == s.execs
      && var x := t.execs[|s.execs|];
      && x.req == req && x.pool == s.current && x.slot.None? && !x.dispatched
      && (x.pc.Retained? <==> s.ready && Meant(req, now))
      && (x.outcome.NotReady? <==> !s.ready)
      && (x.outcome.StaleGeneration? <==> s.ready && req.expectedGeneration != now.generation)
      && (x.outcome.StaleSchema? <==>
            s.ready && req.expectedGeneration == now.generation && req.expectedHash != now.schemaHash)
      && (x.pc.Retained? || x.pc.Done?)
      && t == s.(execs := t.execs, pools := t.pools)
      && t.pools == if x.pc.Done? then s.pools
                    else s.pools[s.current := s.pools[s.current].(references := s.pools[s.current].references + 1)]
  {
    assert Lifecycle(s.pools[s.current]);
  }

  /** A request is registered when its id is not in use. */
  lemma RegistrationAnswer(s: Service, e: nat)
    requires Inv(s) && Enabled(s, Register(e)) && s.execs[e].req.id !in s.active
    ensures Step(s, Register(e)) ==
      SetExec(s, e, s.execs[e].(pc := Registered)).(active := s.active[s.execs[e].req.id := e])
  {
  }

  /** Otherwise it ends as a duplicate and its reference is dropped. */
  lemma DuplicateAnswer(s: Service, e: nat)
    requires Inv(s) && Enabled(s, Register(e)) && s.execs[e].req.id in s.active
    ensures var t, x := Step(s, Register(e)), s.execs[e];
      && t.execs == s.execs[e := x.(pc := Done, outcome := DuplicateRequest)] && t.active == s.active
      && |t.pools| == |s.pools| && t.pools[x.pool].references == s.pools[x.pool].references - 1
  {
    PinnedHere(s.pools, s.execs, e);
  }

  /** A cancelled request stops here; any other goes on to its worker. */
  lemma PublicationAnswer(s: Service, e: nat)
    requires Inv(s) && Enabled(s, Publish(e))
    ensures var t, x := Step(s, Publish(e)), s.execs[e];
      t == SetExec(s, e, if x.cancelRequested
                         then x.(pc := Popping, slotVisible := true, outcome := CancelledBeforeDispatch)
                         else x.(pc := Published, slotVisible := true))
  {
    assert Shape(s.execs[e]);
  }

  /** The leased worker takes the request exactly when it is alive and open. */
  lemma DispatchAnswer(s: Service, e: nat)
    requires Inv(s) && Enabled(s, Dispatch(e))
    ensures var t, x := Step(s, Dispatch(e)), s.execs[e].(dispatched := true);
      && x.leasedWorker.Some? && x.leasedWorker.value < |s.workers|
      && var w := x.leasedWorker.value;
      && (s.workers[w].alive && !s.workers[w].closed ==>
            t == SetExec(s, e, x.(pc := Dispatched))
                 .(workers := s.workers[w := s.workers[w].(serving := Some(x.req.id))]))
      && (!(s.workers[w].alive && !s.workers[w].closed) ==>
            t == SetExec(s, e, x.(pc := Popping, outcome := WorkerNotReady)))
  {
    assert Shape(s.execs[e]) && HoldsIts(s.pools, s.execs[e]) && ServesHolder(s.workers, s.execs[e]);
  }

  /**
   The response of the worker is returned as it is, exactly when it is not marked ok or names the
   operation, generation and schema hash of the request.
   */
  lemma FinishAnswer(s: Service, e: nat, reply: Option<Response>)
    requires Inv(s) && Enabled(s, Finish(e, reply))
    ensures var t, x := Step(s, Finish(e, reply)), s.execs[e];
      && |t.execs| == |s.execs| && t.execs == s.execs[e := x.(pc := Popping, outcome := t.execs[e].outcome)]
      && var o := t.execs[e].outcome;
      && (forall response :: o == Returned(s.pools[x.pool].identity, response) <==>
                             reply == Some(response) && Fits(x.req, response))
      && (o.Returned? <==> reply.Some? && Fits(x.req, reply.value))
      && (o.ResponseDrift? <==> reply.Some? && !Fits(x.req, reply.value))
      && (o.ExchangeFailed? <==> reply.None?)
      && t.pools == s.pools && t.active == s.active
      && x.leasedWorker.Some? && x.leasedWorker.value < |s.workers|
      && t.workers == s.workers[x.leasedWorker.value := s.workers[x.leasedWorker.value].(serving := None)]
  {
    assert Shape(s.execs[e]) && HoldsIts(s.pools, s.execs[e]) && ServesHolder(s.workers, s.execs[e]);
    assert ResultSound(s.execs[e], s.pools[s.execs[e].pool].identity);
  }

  /** A request gives up waiting only for want of a slot. */
  lemma GiveUpAnswer(s: Service, e: nat)
    requires Inv(s) && Enabled(s, GiveUpLease(e))
    ensures Step(s, GiveUpLease(e)) == SetExec(s, e, s.execs[e].(pc := Popping, outcome := LeaseTimeout))
    ensures forall i :: 0 <= i < |s.pools[s.execs[e].pool].slots| ==>
      !Available(s.pools[s.execs[e].pool].slots[i], s.workers)
  {
    GiveUpShape(s, e);
    PinnedIsOpen(s.pools, s.execs, e);
  }

  /** Leaving the active map frees the id. */
  lemma PopAnswer(s: Service, e: nat)
    requires Inv(s) && Enabled(s, Pop(e))
    ensures Step(s, Pop(e)) == SetExec(s, e, s.execs[e].(pc := Releasing)).(active := s.active - {s.execs[e].req.id})
  {
  }

  /** Giving back frees the very slot that was leased, and nothing else if no slot was. */
  lemma GiveBackAnswer(s: Service, e: nat)
    requires Inv(s) && Enabled(s, GiveBack(e))
    ensures var t, x := Step(s, GiveBack(e)), s.execs[e];
      && t.execs == s.execs[e := x.(pc := Dropping, slot := None)] && |t.pools| == |s.pools|
      && (x.slot.None? ==> t.pools == s.pools)
      && (x.slot.Some? ==>
            && x.leasedWorker.Some? && x.slot.value < |s.pools[x.pool].slots|
            && t.pools[x.pool].slots == s.pools[x.pool].slots[x.slot.value := Slot(x.leasedWorker.value, None)]
            && t.pools[x.pool].active == s.pools[x.pool].active - 1)
  {
    assert Shape(s.execs[e]) && HoldsIts(s.pools, s.execs[e]);
  }

  /** The last region of a call drops its reference and ends it. */
  lemma DropAnswer(s: Service, e: nat)
    requires Inv(s) && Enabled(s, Drop(e))
    ensures var t, x := Step(s, Drop(e)), s.execs[e];
      && t.execs == s.execs[e := x.(pc := Done)] && |t.pools| == |s.pools|
      && t.pools[x.pool].references == s.pools[x.pool].references - 1
  {
    PinnedHere(s.pools, s.execs, e);
  }

  // ------------------------------------------------------------ cancel

  /** A cancel for an id that is not in use answers False. */
  lemma UnknownCancelAnswer(s: Service, rid: RequestId, session: Token, run: Token)
    requires Enabled(s, AskCancel(rid, session, run)) && rid !in s.active
    ensures Step(s, AskCancel(rid, session, run)) == s.(cancels := s.cancels + [Cancel(rid, None, NoSuchRequest)])
  {
  }

  /**
   A cancel for an id in use: refused for the wrong owner; True at once exactly when the slot is not yet
   visible; otherwise it waits for the leased worker.
   */
  lemma CancelAnswers(s: Service, rid: RequestId, session: Token, run: Token)
    requires Inv(s) && Enabled(s, AskCancel(rid, session, run)) && rid in s.active
    ensures s.active[rid] < |s.execs|
    ensures var t, e := Step(s, AskCancel(rid, session, run)), s.active[rid];
      var x, rightful := s.execs[e], s.execs[e].req.session == session && s.execs[e].req.run == run;
      && |t.cancels| == |s.cancels| + 1 && t.cancels[..|s.cancels|] == s.cancels
      && t.cancels[|s.cancels|].rid == rid && t.cancels[|s.cancels|].target == Some(e)
      && var answer := t.cancels[|s.cancels|].answer;
      && (answer.OwnershipMismatch? <==> !rightful)
      && (answer.CancelledEarly? <==> rightful && !x.slotVisible)
      && (answer.AwaitingWorker? <==> rightful && x.slotVisible)
      && (answer.AwaitingWorker? ==> x.leasedWorker == Some(answer.worker))
      && t == s.(cancels := t.cancels, execs := if rightful then s.execs[e := x.(cancelRequested := true)] else s.execs)
  {
    assert HoldsIts(s.pools, s.execs[s.active[rid]]);
  }

  /** A worker confirms exactly when it is alive and open, serves that id, and its termination is reported. */
  lemma WorkerAnswers(s: Service, c: nat, terminated: bool)
    requires Enabled(s, CancelAtWorker(c, terminated))
    ensures var t, k := Step(s, CancelAtWorker(c, terminated)), s.cancels[c];
      && var w := k.answer.worker;
      && var old_ := s.workers[w];
      && var serves := !old_.closed && old_.serving == Some(k.rid);
      && t.cancels == s.cancels[c := k.(answer := WorkerAnswered(w, serves && old_.alive && terminated))]
      && t.workers == s.workers[w := t.workers[w]]
      && (t.workers[w].closed <==> old_.closed || (serves && (!old_.alive || terminated)))
      && t.workers[w].serving == old_.serving && t.workers[w].alive == old_.alive
      && t == s.(workers := t.workers, cancels := t.cancels)
  {
    assert s.workers == s.workers[s.cancels[c].answer.worker := s.workers[s.cancels[c].answer.worker]];
  }

  // ------------------------------------------------------------ reload, replace, close

  /**
   A candidate is published exactly when the service is ready and the candidate's generation is newer;
   then the old generation is retired last and left to be drained. Otherwise nothing is touched and the
   candidate is given up.
   */
  lemma ReloadAnswer(s: Service)
    requires Inv(s) && Enabled(s, PublishCandidate)
    ensures var t, c := Step(s, PublishCandidate), s.admin.pool;
      && c != s.current
      && (s.ready && s.pools[c].identity.generation > s.pools[s.current].identity.generation ==>
            t == s.(current := c, retired := s.retired + [s.current], admin := Draining([s.current]),
                    pools := s.pools[c := s.pools[c].(published := true)]))
      && (!(s.ready && s.pools[c].identity.generation > s.pools[s.current].identity.generation) ==>
            t == s.(admin := Abandoning(c)))
  {
  }

  /** A candidate generation is set up exactly for workers that are acceptable together. */
  lemma BuildAnswer(s: Service, identity: Identity, launched: seq<Worker>)
    requires Inv(s) && Enabled(s, BuildCandidate(identity, launched))
    ensures var t := Step(s, BuildCandidate(identity, launched));
      && t.workers == s.workers + launched && t.current == s.current && t.execs == s.execs
      && (Acceptable(launched, identity) ==>
            && |t.pools| == |s.pools| + 1 && t.pools[..|s.pools|] == s.pools && t.admin == Candidate(|s.pools|)
            && var q := t.pools[|s.pools|];
            && q.identity == identity && |q.slots| == |launched| && !q.closed && !q.published && !q.draining
            && forall i :: 0 <= i < |launched| ==> q.slots[i] == Slot(|s.workers| + i, None))
      && (!Acceptable(launched, identity) ==>
            && t.pools == s.pools && t.admin.Idle?
            && forall w :: |s.workers| <= w < |t.workers| ==> w in t.handed)
  {
    var slots := FreshSlots(|s.workers|, |launched|);
    forall w | |s.workers| <= w < |s.workers| + |launched| ensures w in SlotWorkers(slots) {
      assert slots[w - |s.workers|].worker == w;
    }
  }

  /** The dead, unleased worker of this id, in this slot, may be replaced by this one. */
  ghost predicate Replaceable(p: Pool, workers: seq<Worker>, id: Token, incoming: Worker, t: nat)
    requires WellIndexed(p.slots, workers)
  {
    && t < |p.slots| && workers[p.slots[t].worker].id == id && p.slots[t].request.None?
    && !(workers[p.slots[t].worker].alive && !workers[p.slots[t].worker].closed)
    && incoming.alive && !incoming.closed && incoming.registry == p.identity
    && forall j :: 0 <= j < |p.slots| && j != t ==>
         workers[p.slots[j].worker].id != incoming.id && workers[p.slots[j].worker].process != incoming.process
  }

  lemma {:induction false} ClashIff(slots: seq<Slot>, workers: seq<Worker>, skip: nat, incoming: Worker, k: nat)
    requires WellIndexed(slots, workers) && k <= |slots|
    requires forall j :: k <= j < |slots| && j != skip ==>
      workers[slots[j].worker].id != incoming.id && workers[slots[j].worker].process != incoming.process
    ensures Clash(slots, workers, skip, incoming, k).None?
    decreases |slots| - k
  {
    if k < |slots| { ClashIff(slots, workers, skip, incoming, k + 1); }
  }

  /** A replacement goes through exactly when some slot is replaceable, and then in that slot. */
  lemma ReplaceAnswer(p: Pool, workers: seq<Worker>, id: Token, incoming: WorkerRef, t: nat)
    requires WellIndexed(p.slots, workers) && incoming < |workers| && Distinct(p.slots, workers, p.identity)
      && !p.closed
    ensures Replaceable(p, workers, id, workers[incoming], t) <==>
            t < |p.slots| && ReplaceWorker(p, workers, id, incoming)
              == Ok(p.(slots := p.slots[t := Slot(incoming, None)]))
              && workers[p.slots[t].worker].id == id && p.slots[t].request.None?
  {
    var f := FindWorker(p.slots, workers, id);
    if Replaceable(p, workers, id, workers[incoming], t) {
      assert f == t;
      ClashIff(p.slots, workers, t, workers[incoming], 0);
    }
    if t < |p.slots| && workers[p.slots[t].worker].id == id && ReplaceWorker(p, workers, id, incoming).Ok? {
      ReplacementIsSafe(p, workers, id, incoming);
      assert f == t;
    }
  }

  lemma ReplaceRefused(p: Pool, workers: seq<Worker>, id: Token, incoming: WorkerRef)
    requires WellIndexed(p.slots, workers) && incoming < |workers| && Distinct(p.slots, workers, p.identity)
    requires forall i: nat :: !Replaceable(p, workers, id, workers[incoming], i)
    ensures ReplaceWorker(p, workers, id, incoming).Err?
  {
    var f := FindWorker(p.slots, workers, id);
    assert !Replaceable(p, workers, id, workers[incoming], f);
  }

  /**
   `replace_worker` on the service: with a replaceable slot of the current generation the new worker takes
   it and the old one is handed over; otherwise the new worker is, and no pool changes.
   */
  lemma ReplaceDeadAnswer(s: Service, id: Token, launched: Worker, i: nat)
    requires Inv(s) && Enabled(s, ReplaceDead(id, launched))
    ensures var t, p, workers, n := Step(s, ReplaceDead(id, launched)), s.pools[s.current], s.workers + [launched],
      |s.workers|;
      && WellIndexed(p.slots, workers) && t.workers == workers
      && (s.ready && Replaceable(p, workers, id, launched, i) ==>
            && t.pools == s.pools[s.current := p.(slots := p.slots[i := Slot(n, None)])]
            && t.handed == s.handed + {p.slots[i].worker})
      && (!s.ready || (forall j: nat :: !Replaceable(p, workers, id, launched, j)) ==>
            t.pools == s.pools && t.handed == s.handed + {n})
  {
    var p, workers, n := s.pools[s.current], s.workers + [launched], |s.workers|;
    assert Lifecycle(p);
    assert WellIndexed(p.slots, s.workers) && Distinct(p.slots, s.workers, p.identity);
    assert workers[n] == launched && forall w :: 0 <= w < n ==> workers[w] == s.workers[w];
    assert Distinct(p.slots, workers, p.identity);
    if s.ready && Replaceable(p, workers, id, launched, i) {
      ReplaceAnswer(p, workers, id, n, i);
      assert FindWorker(p.slots, workers, id) == i;
    }
    if s.ready && forall j: nat :: !Replaceable(p, workers, id, launched, j) { ReplaceRefused(p, workers, id, n); }
  }

  /** Closing a ready service ends admission and leaves every generation to be drained. */
  lemma CloseAnswer(s: Service)
    requires Inv(s) && Enabled(s, CloseService)
    ensures var t := Step(s, CloseService);
      && !t.ready && t.pools == s.pools && t.execs == s.execs
      && (s.ready ==> t.admin.Draining? && forall p :: p in t.admin.todo <==> p == s.current || p in s.retired)
      && (!s.ready ==> t == s)
  {
  }

  /** Asking for the state forgets the retired generations that are closed, and only those. */
  lemma HealthAnswer(s: Service)
    requires Inv(s) && Enabled(s, Health)
    ensures var t := Step(s, Health);
      t == s.(retired := t.retired) && forall p :: p in t.retired <==> p in s.retired && !s.pools[p].closed
  {
  }

  lemma ClosedStaysClosed(states: seq<Service>, actions: seq<Action>, i: nat, j: nat)
    requires IsRun(states, actions) && i < j < |states| && actions[i].CloseService?
    ensures !states[j].ready
  {
    RunKeepsInvariant(states, actions, i);
    assert StepAt(states, actions, i);
    CloseAnswer(states[i]);
    RunMovesForward(states, actions, i + 1, j);
  }

  /** Once closed, the service refuses every call for the rest of the run. */
  lemma ClosedRefuses(states: seq<Service>, actions: seq<Action>, i: nat, j: nat)
    requires IsRun(states, actions) && i < j < |actions| && actions[i].CloseService? && actions[j].Admit?
    ensures var n := |states[j].execs|;
      && |states[j + 1].execs| == n + 1
      && states[j + 1].execs[n].pc.Done? && states[j + 1].execs[n].outcome.NotReady?
  {
    ClosedStaysClosed(states, actions, i, j);
    RunKeepsInvariant(states, actions, j);
    assert StepAt(states, actions, j);
    AdmissionAnswer(states[j], actions[j].req);
  }

  // ------------------------------------------------------------ whole calls

  lemma DropsReference(s: Service) returns (t: Service)
    requires |s.execs| == 1 && At(s, 0, Dropping) && s.execs[0].pool == 0 && |s.pools| == 1
    requires s.pools[0].references > 0 && !s.pools[0].draining
    ensures Leads(Goes, s, [Drop(0)], t) && t.execs == [s.execs[0].(pc := Done)] && t.active == s.active
    ensures |t.pools| == 1 && t.pools[0].references == s.pools[0].references - 1
      && t.pools[0].active == s.pools[0].active
  {
    t := Step(s, Drop(0));
    LeadsOne(Goes, s, Drop(0), t);
  }

  /** From every fresh service a request meant for it gets its worker's fitting response, and all is given back. */
  lemma RequestIsAnswered(s: Service, req: Request, reply: Response) returns (actions: seq<Action>, t: Service)
    requires Initial(s) && Meant(req, s.pools[0].identity) && Fits(req, reply)
    ensures Leads(Goes, s, actions, t) && |t.execs| == 1 && t.execs[0].req == req && t.execs[0].pc.Done?
    ensures t.execs[0].outcome == Returned(s.pools[0].identity, reply)
    ensures t.active == map[] && |t.pools| == 1 && t.pools[0].references == 0 && t.pools[0].active == 0
  {
    var first, s1 := IsServed(s, req);
    assert s1.active == map[req.id := 0];
    var s2 := Answers(s1, req, reply);
    var s3 := FreesSlot(s2, req);
    t := DropsReference(s3);
    var second := [Finish(0, Some(reply))] + [Pop(0)];
    LeadsFurther(Goes, s, first, s1, second, s2);
    LeadsFurther(Goes, s, first + second, s2, [GiveBack(0)], s3);
    LeadsFurther(Goes, s, first + second + [GiveBack(0)], s3, [Drop(0)], t);
    actions := first + second + [GiveBack(0)] + [Drop(0)];
  }

  lemma SetsUpCandidate(s: Service, identity: Identity, launched: seq<Worker>) returns (t: Service)
    requires Initial(s) && Acceptable(launched, identity) && forall i :: 0 <= i < |launched| ==> Launched(launched[i])
    ensures Leads(Goes, s, [BuildCandidate(identity, launched)], t)
    ensures t.ready && t.current == 0 && t.retired == [] && t.admin == Candidate(1) && |t.pools| == 2
    ensures t.pools[0] == s.pools[0] && t.pools[1].identity == identity && !t.pools[1].closed
  {
    var build := BuildCandidate(identity, launched);
    t := Step(s, build);
    LeadsOne(Goes, s, build, t);
  }

  lemma SwitchesOver(s: Service) returns (t: Service)
    requires s.ready && s.current == 0 && s.retired == [] && s.admin == Candidate(1) && |s.pools| == 2
    requires s.pools[1].identity.generation > s.pools[0].identity.generation && !s.pools[1].closed
    requires s.pools[0].references == 0 && s.pools[0].active == 0 && !s.pools[0].closed
    ensures Leads(Goes, s, [PublishCandidate] + [DrainNext], t)
    ensures |t.pools| == 2 && t.current == 1 && t.pools[1] == s.pools[1].(published := true)
    ensures t.ready && t.pools[0].closed && t.retired == [0] && t.admin.Idle?
  {
    var mid := Step(s, PublishCandidate);
    LeadsOne(Goes, s, PublishCandidate, mid);
    t := Step(mid, DrainNext);
    LeadsOne(Goes, mid, DrainNext, t);
    LeadsFurther(Goes, s, [PublishCandidate], mid, [DrainNext], t);
  }

  /** From every fresh service any acceptable workers of a newer generation become current, and the old ones close. */
  lemma ReloadPublishes(s: Service, identity: Identity, launched: seq<Worker>)
    returns (actions: seq<Action>, t: Service)
    requires Initial(s) && Acceptable(launched, identity) && identity.generation > s.pools[0].identity.generation
    requires forall i :: 0 <= i < |launched| ==> Launched(launched[i])
    ensures Leads(Goes, s, actions, t)
    ensures |t.pools| == 2 && t.current == 1 && t.pools[1].identity == identity && t.pools[1].published
    ensures t.ready && !t.pools[1].closed && t.pools[0].closed && t.retired == [0] && t.admin.Idle?
  {
    var mid := SetsUpCandidate(s, identity, launched);
    t := SwitchesOver(mid);
    actions := [BuildCandidate(identity, launched)] + ([PublishCandidate] + [DrainNext]);
    LeadsFurther(Goes, s, [BuildCandidate(identity, launched)], mid, [PublishCandidate] + [DrainNext], t);
  }
}
