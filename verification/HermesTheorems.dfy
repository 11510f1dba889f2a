/** What the Hermes service guarantees over every run. */
module HermesTheorems {
  import opened Basics
  import opened GenerationPool
  import opened HermesService
  import opened HermesInvariant
  import opened HermesPreservation

  ghost predicate StepAt(states: seq<Service>, actions: seq<Action>, i: nat)
    requires i < |actions| && |states| == |actions| + 1
  {
    Enabled(states[i], actions[i]) && states[i + 1] == Step(states[i], actions[i])
  }

  /** A run: any interleaving of enabled regions from a freshly constructed service. */
  ghost predicate IsRun(states: seq<Service>, actions: seq<Action>)
  {
    && |states| == |actions| + 1
    && Initial(states[0])
    && forall i: nat :: i < |actions| ==> StepAt(states, actions, i)
  }

  lemma {:induction false} RunKeepsInvariant(states: seq<Service>, actions: seq<Action>, i: nat)
    requires IsRun(states, actions) && i < |states|
    ensures Inv(states[i])
  {
    if i == 0 {
      InitialInv(states[0]);
    } else {
      RunKeepsInvariant(states, actions, i - 1);
      assert StepAt(states, actions, i - 1);
      StepKeeps(states[i - 1], actions[i - 1]);
    }
  }

  // ------------------------------------------------------------ ownership

  /**
   At every moment of every run each pool's reference count is the number of executions
   pinned to it, its active count the number of leased slots, and no execution has run into
   a closed generation, an underflow, a drifted lease, a lost registration or a busy worker.
   */
  lemma CountsAreExact(states: seq<Service>, actions: seq<Action>, i: nat)
    requires IsRun(states, actions) && i < |states|
    ensures var s := states[i];
            && (forall p :: 0 <= p < |s.pools| ==>
                  s.pools[p].references == |Pinned(s.execs, p)| && s.pools[p].active == |LeasedSlots(s.pools[p].slots)|)
            && (forall e :: 0 <= e < |s.execs| ==> !Impossible(s.execs[e].outcome))
  {
    RunKeepsInvariant(states, actions, i);
    assert forall e :: 0 <= e < |states[i].execs| ==> Shape(states[i].execs[e]);
  }

  /** Every leased slot belongs to exactly one execution, and carries that execution's request id. */
  lemma LeasesAreExclusive(states: seq<Service>, actions: seq<Action>, i: nat, p: nat, k: nat)
    requires IsRun(states, actions) && i < |states| && LeasedAt(states[i].pools, p, k)
    ensures var s := states[i];
            exists e: nat ::
              && HolderOf(s.execs, p, k, e)
              && s.pools[p].slots[k].request == Some(s.execs[e].req.id)
              && forall d: nat :: HolderOf(s.execs, p, k, d) ==> d == e
  {
    RunKeepsInvariant(states, actions, i);
    var s := states[i];
    var e: nat :| HolderOf(s.execs, p, k, e);
    assert HoldsIts(s.pools, s.execs[e]);
    assert forall d: nat :: HolderOf(s.execs, p, k, d) ==> d == e;
  }

  /**
   Ownership is per execution, not per request id: once an execution has left the active map
   its id may be used again before its slot is back, and then two slots carry the same id.
   */
  lemma RequestIdMayRepeat(s: Service, d: nat, e: nat, i: nat)
    requires Inv(s) && At(s, d, Releasing) && s.execs[d].slot.Some? && Enabled(s, Lease(e, i))
    requires s.execs[d].req.id == s.execs[e].req.id && s.execs[d].pool == s.execs[e].pool
    ensures var t := LeaseStep(s, e, i);
            var p := s.execs[d].pool;
            var k := s.execs[d].slot.value;
            && k != i && k < |t.pools[p].slots|
            && t.pools[p].slots[k].request == t.pools[p].slots[i].request == Some(s.execs[e].req.id)
  {
    assert HoldsIts(s.pools, s.execs[d]);
  }

  // ------------------------------------------------------------ draining and closing

  /** An execution that is still running never meets a closed generation, and none of its workers is being closed. */
  lemma PinnedGenerationIsOpen(states: seq<Service>, actions: seq<Action>, i: nat, e: nat)
    requires IsRun(states, actions) && i < |states| && e < |states[i].execs| && !states[i].execs[e].pc.Done?
    ensures var s := states[i];
            var p := s.execs[e].pool;
            && p < |s.pools| && !s.pools[p].closed
            && forall k :: 0 <= k < |s.pools[p].slots| ==> s.pools[p].slots[k].worker !in s.handed
  {
    RunKeepsInvariant(states, actions, i);
    PinnedIsOpen(states[i].pools, states[i].execs, e);
  }

  /** When a worker is closed, no execution is pinned to a generation that still uses it. */
  lemma ClosingNeverHurts(states: seq<Service>, actions: seq<Action>, i: nat, w: WorkerRef, e: nat)
    requires IsRun(states, actions) && i < |actions| && actions[i] == CloseWorker(w)
    requires e < |states[i].execs| && !states[i].execs[e].pc.Done?
    ensures states[i].execs[e].pool < |states[i].pools|
    ensures w !in SlotWorkers(states[i].pools[states[i].execs[e].pool].slots)
    ensures states[i].execs[e].slot.Some? ==> states[i].execs[e].leasedWorker != Some(w)
  {
    RunKeepsInvariant(states, actions, i);
    assert StepAt(states, actions, i);
    PinnedGenerationIsOpen(states, actions, i, e);
    assert HoldsIts(states[i].pools, states[i].execs[e]);
  }

  /** A draining generation without references and leases is already closed; workers are handed over once. */
  lemma DrainedIsClosed(states: seq<Service>, actions: seq<Action>, i: nat, p: nat)
    requires IsRun(states, actions) && i < |states| && p < |states[i].pools|
    ensures var q := states[i].pools[p];
            && (q.draining && Pinned(states[i].execs, p) == {} && LeasedSlots(q.slots) == {} ==> q.closed)
            && (q.closed ==> Pinned(states[i].execs, p) == {} && LeasedSlots(q.slots) == {})
            && q.handoffs == (if q.closed then 1 else 0)
            && (q.closed ==> forall k :: 0 <= k < |q.slots| ==> q.slots[k].worker in states[i].handed)
  {
    RunKeepsInvariant(states, actions, i);
    assert Lifecycle(states[i].pools[p]);
  }

  /** Once every execution is finished and no administrator is at work, only the current generation is open. */
  lemma QuiescentIsClosed(states: seq<Service>, actions: seq<Action>, i: nat)
    requires IsRun(states, actions) && i < |states|
    requires states[i].admin.Idle? && forall e :: 0 <= e < |states[i].execs| ==> states[i].execs[e].pc.Done?
    ensures var s := states[i];
            forall p :: 0 <= p < |s.pools| && (p != s.current || !s.ready) ==> s.pools[p].closed
  {
    RunKeepsInvariant(states, actions, i);
    QuiescentCloses(states[i]);
  }

  lemma QuiescentCloses(s: Service)
    requires Inv(s) && s.admin.Idle? && forall e :: 0 <= e < |s.execs| ==> s.execs[e].pc.Done?
    ensures forall p :: 0 <= p < |s.pools| && (p != s.current || !s.ready) ==> s.pools[p].closed
  {
    forall p | 0 <= p < |s.pools| && (p != s.current || !s.ready)
      ensures s.pools[p].closed
    {
      assert Lifecycle(s.pools[p]);
      assert Pinned(s.execs, p) == {};
      FinishedHoldNothing(s, p);
    }
  }

  lemma FinishedHoldNothing(s: Service, p: nat)
    requires Accounted(s.pools, s.execs) && LeasesCounted(s.pools) && Shaped(s.execs) && p < |s.pools|
    requires forall e :: 0 <= e < |s.execs| ==> s.execs[e].pc.Done?
    ensures s.pools[p].active == 0
  {
    assert forall e :: 0 <= e < |s.execs| ==> Shape(s.execs[e]);
    assert forall i: nat, e: nat :: !HolderOf(s.execs, p, i, e);
    assert forall i: nat :: i < |s.pools[p].slots| && s.pools[p].slots[i].request.Some? ==> LeasedAt(s.pools, p, i);
    assert LeasedSlots(s.pools[p].slots) == {};
  }

  // ------------------------------------------------------------ history

  ghost predicate ExecLater(x: Exec, y: Exec)
  {
    && y.req == x.req && y.pool == x.pool
    && (x.dispatched ==> y.dispatched)
    && (x.pc.Done? ==> y.pc.Done? && y.outcome == x.outcome)
    && (x.outcome.Returned? ==> y.outcome == x.outcome)
  }

  ghost predicate CancelLater(x: Cancel, y: Cancel)
  {
    y.rid == x.rid && y.target == x.target && (!x.answer.AwaitingWorker? ==> y == x)
  }

  /** What no region ever takes back. */
  ghost predicate Later(s: Service, t: Service)
  {
    && SameGenerations(s.pools, t.pools)
    && s.current <= t.current
    && |s.execs| <= |t.execs| && (forall e :: 0 <= e < |s.execs| ==> ExecLater(s.execs[e], t.execs[e]))
    && |s.cancels| <= |t.cancels| && (forall c :: 0 <= c < |s.cancels| ==> CancelLater(s.cancels[c], t.cancels[c]))
    && (t.ready ==> s.ready)
  }

  lemma MoveIsLater(s: Service, t: Service, e: nat)
    requires e < |s.execs| && |t.execs| == |s.execs| && t.execs == s.execs[e := t.execs[e]]
      && ExecLater(s.execs[e], t.execs[e])
    requires t.cancels == s.cancels && t.current == s.current && t.ready == s.ready && SameGenerations(s.pools, t.pools)
    ensures Later(s, t)
  {
  }

  lemma AdmissionIsLater(s: Service, a: Action, e: nat)
    requires Shaped(s.execs) && Enabled(s, a)
    requires a == Register(e) || a == GiveUpLease(e) || a == Publish(e) || (a.Lease? && a.e == e)
    ensures Later(s, Step(s, a))
  {
    assert Shape(s.execs[e]);
    MoveIsLater(s, Step(s, a), e);
  }

  lemma ServiceIsLater(s: Service, a: Action, e: nat)
    requires Shaped(s.execs) && Enabled(s, a)
    requires a == Dispatch(e) || a == Pop(e) || (a.Finish? && a.e == e)
    ensures Later(s, Step(s, a))
  {
    assert Shape(s.execs[e]);
    MoveIsLater(s, Step(s, a), e);
  }

  lemma UnwindingIsLater(s: Service, a: Action, e: nat)
    requires Shaped(s.execs) && Held(s.pools, s.execs) && Counted(s.pools, s.execs) && Enabled(s, a)
    requires a == GiveBack(e) || a == Drop(e)
    ensures Later(s, Step(s, a))
  {
    assert Shape(s.execs[e]) && HoldsIts(s.pools, s.execs[e]);
    PinnedHere(s.pools, s.execs, e);
    MoveIsLater(s, Step(s, a), e);
  }

  lemma QuietIsLater(s: Service, t: Service)
    requires t.execs == s.execs && t.cancels == s.cancels && s.current <= t.current && (t.ready ==> s.ready)
      && SameGenerations(s.pools, t.pools)
    ensures Later(s, t)
  {
  }

  lemma PublicationIsLater(s: Service, a: Action)
    requires Enabled(s, a) && (s.admin.Candidate? ==> s.current < s.admin.pool)
    requires a.BuildCandidate? || a.PublishCandidate?
    ensures Later(s, Step(s, a))
  {
    QuietIsLater(s, Step(s, a));
  }

  lemma RetirementIsLater(s: Service, a: Action)
    requires Enabled(s, a) && (a.AbandonCandidate? || a.DrainNext? || a.ReplaceDead?)
    ensures Later(s, Step(s, a))
  {
    QuietIsLater(s, Step(s, a));
  }

  lemma UpkeepIsLater(s: Service, a: Action)
    requires Enabled(s, a) && (a.Admit? || a.CloseService? || a.Health? || a.CloseWorker? || a.WorkerDies?)
    ensures Later(s, Step(s, a))
  {
  }

  lemma AskIsLater(s: Service, a: Action)
    requires Enabled(s, a) && a.AskCancel?
    ensures Later(s, Step(s, a))
  {
  }

  lemma AnswerIsLater(s: Service, a: Action)
    requires Enabled(s, a) && a.CancelAtWorker?
    ensures Later(s, Step(s, a))
  {
  }

  lemma StepIsLater(s: Service, a: Action)
    requires Inv(s) && Enabled(s, a)
    ensures Later(s, Step(s, a))
  {
    match a
    case Register(e) => AdmissionIsLater(s, a, e);
    case Lease(e, _) => AdmissionIsLater(s, a, e);
    case GiveUpLease(e) => AdmissionIsLater(s, a, e);
    case Publish(e) => AdmissionIsLater(s, a, e);
    case Dispatch(e) => ServiceIsLater(s, a, e);
    case Finish(e, _) => ServiceIsLater(s, a, e);
    case Pop(e) => ServiceIsLater(s, a, e);
    case GiveBack(e) => UnwindingIsLater(s, a, e);
    case Drop(e) => UnwindingIsLater(s, a, e);
    case AskCancel(_, _, _) => AskIsLater(s, a);
    case CancelAtWorker(_, _) => AnswerIsLater(s, a);
    case BuildCandidate(_, _) => PublicationIsLater(s, a);
    case PublishCandidate => PublicationIsLater(s, a);
    case AbandonCandidate => RetirementIsLater(s, a);
    case DrainNext => RetirementIsLater(s, a);
    case ReplaceDead(_, _) => RetirementIsLater(s, a);
    case _ => UpkeepIsLater(s, a);
  }

  lemma LaterIsTransitive(s: Service, t: Service, u: Service)
    requires Later(s, t) && Later(t, u)
    ensures Later(s, u)
  {
    forall e | 0 <= e < |s.execs| ensures ExecLater(s.execs[e], u.execs[e]) {
      assert ExecLater(s.execs[e], t.execs[e]) && ExecLater(t.execs[e], u.execs[e]);
    }
    forall c | 0 <= c < |s.cancels| ensures CancelLater(s.cancels[c], u.cancels[c]) {
      assert CancelLater(s.cancels[c], t.cancels[c]) && CancelLater(t.cancels[c], u.cancels[c]);
    }
  }

  lemma LaterIsReflexive(s: Service)
    ensures Later(s, s)
  {
  }

  lemma RunStepIsLater(states: seq<Service>, actions: seq<Action>, i: nat)
    requires IsRun(states, actions) && i < |actions|
    ensures Later(states[i], states[i + 1])
  {
    RunKeepsInvariant(states, actions, i);
    assert StepAt(states, actions, i);
    StepIsLater(states[i], actions[i]);
  }

  lemma {:induction false} RunMovesForward(states: seq<Service>, actions: seq<Action>, i: nat, j: nat)
    requires IsRun(states, actions) && i <= j < |states|
    ensures Later(states[i], states[j])
  {
    if i == j {
      LaterIsReflexive(states[i]);
    } else {
      RunMovesForward(states, actions, i, j - 1);
      RunStepIsLater(states, actions, j - 1);
      LaterIsTransitive(states[i], states[j - 1], states[j]);
    }
  }

  // ------------------------------------------------------------ cancellation

  /**
   What stays true of a cancel that has answered True: either the execution it found never calls a
   worker, or the worker once leased to that execution has confirmed its termination while serving the
   cancelled request id. Which execution of that id it was then serving is said in HermesCancel.
   */
  lemma CancelTrueIsFinal(states: seq<Service>, actions: seq<Action>, i: nat, j: nat, c: nat)
    requires IsRun(states, actions) && i <= j < |states| && c < |states[i].cancels|
      && states[i].cancels[c].AnsweredTrue()
    ensures c < |states[j].cancels| && states[j].cancels[c] == states[i].cancels[c]
    ensures var k := states[j].cancels[c];
            && k.target.Some? && k.target.value < |states[j].execs|
            && var x := states[j].execs[k.target.value];
            && x.req.id == k.rid
            && (|| (k.answer.CancelledEarly? && !x.dispatched)
                || (k.answer.WorkerAnswered? && x.leasedWorker == Some(k.answer.worker)
                  && k.answer.worker < |states[j].workers|
                    && states[j].workers[k.answer.worker].closed
                    && states[j].workers[k.answer.worker].terminated == Some(k.rid)))
  {
    RunMovesForward(states, actions, i, j);
    RunKeepsInvariant(states, actions, j);
    assert CancelLater(states[i].cancels[c], states[j].cancels[c]);
    assert CancelSound(states[j].execs, states[j].workers, states[j].cancels[c]);
  }

  /**
   The region that confirms a termination hits a live worker while it serves exactly the cancelled
   request id, and some execution of that id is waiting for that worker.
   */
  lemma TerminationHitsTheRequest(s: Service, c: nat)
    requires Inv(s) && Enabled(s, CancelAtWorker(c, true)) && CancelAtWorkerStep(s, c, true).cancels[c].AnsweredTrue()
    ensures var w := s.cancels[c].answer.worker;
            && s.workers[w].serving == Some(s.cancels[c].rid) && s.workers[w].Ready()
            && exists e: nat :: ServedBy(s.execs, w, e) && s.execs[e].req.id == s.cancels[c].rid
  {
    var w := s.cancels[c].answer.worker;
    var e: nat :| ServedBy(s.execs, w, e);
    assert ServesHolder(s.workers, s.execs[e]);
  }

  /** A cancel from the wrong session or run is refused and touches nothing but its own record. */
  lemma WrongOwnerChangesNothing(s: Service, rid: RequestId, session: Token, run: Token)
    requires Inv(s) && Enabled(s, AskCancel(rid, session, run)) && rid in s.active
    requires s.execs[s.active[rid]].req.session != session || s.execs[s.active[rid]].req.run != run
    ensures Step(s, AskCancel(rid, session, run))
            == s.(cancels := s.cancels + [Cancel(rid, Some(s.active[rid]), OwnershipMismatch)])
  {
  }

  /** After a cancel by the rightful owner that found the slot visible. */
  ghost function LateAsked(s: Service, e: nat): Service
    requires At(s, e, Published) && HasSlot(s, e)
  {
    var x := s.execs[e];
    SetExec(s, e, x.(cancelRequested := true))
    .(cancels := s.cancels + [Cancel(x.req.id, Some(e), AwaitingWorker(WorkerOf(s, e)))])
  }

  /** After the worker has told that cancel that it does not serve the request. */
  ghost function LateAnswered(s: Service, e: nat): Service
    requires At(s, e, Published) && HasSlot(s, e)
  {
    LateAsked(s, e).(cancels := s.cancels + [Cancel(s.execs[e].req.id, Some(e), WorkerAnswered(WorkerOf(s, e), false))])
  }

  lemma LateAsk(s: Service, e: nat)
    requires Inv(s) && At(s, e, Published) && HasSlot(s, e)
    ensures var ask := AskCancel(s.execs[e].req.id, s.execs[e].req.session, s.execs[e].req.run);
            Enabled(s, ask) && Step(s, ask) == LateAsked(s, e)
  {
    VisibleButUnserved(s, e);
  }

  lemma LateAnswer(s: Service, e: nat, terminated: bool)
    requires At(s, e, Published) && HasSlot(s, e) && s.workers[WorkerOf(s, e)].serving.None?
    ensures var answer := CancelAtWorker(|s.cancels|, terminated);
            Enabled(LateAsked(s, e), answer) && Step(LateAsked(s, e), answer) == LateAnswered(s, e)
  {
    var t, k := LateAsked(s, e), Cancel(s.execs[e].req.id, Some(e), WorkerAnswered(WorkerOf(s, e), false));
    assert t.cancels[|s.cancels| := k] == s.cancels + [k];
  }

  /**
   False promises nothing: a cancel that arrives after the slot is visible but before the
   worker has registered the request answers False, and the request is dispatched all the same.
   */
  lemma LateCancelIsLost(s: Service, e: nat, terminated: bool)
    requires Inv(s) && At(s, e, Published) && HasSlot(s, e) && s.workers[WorkerOf(s, e)].Ready()
    ensures var ask := AskCancel(s.execs[e].req.id, s.execs[e].req.session, s.execs[e].req.run);
            Enabled(s, ask) && Step(s, ask) == LateAsked(s, e)
    ensures var answer := CancelAtWorker(|s.cancels|, terminated);
            Enabled(LateAsked(s, e), answer) && Step(LateAsked(s, e), answer) == LateAnswered(s, e)
    ensures LateAnswered(s, e).cancels[|s.cancels|].answer == WorkerAnswered(WorkerOf(s, e), false)
    ensures Enabled(LateAnswered(s, e), Dispatch(e)) && Step(LateAnswered(s, e), Dispatch(e)).execs[e].pc.Dispatched?
  {
    VisibleButUnserved(s, e);
    LateAsk(s, e);
    LateAnswer(s, e, terminated);
  }

  /** Between publishing the slot and calling the worker, the worker serves nobody. */
  lemma VisibleButUnserved(s: Service, e: nat)
    requires Inv(s) && At(s, e, Published) && HasSlot(s, e)
    ensures var x := s.execs[e];
            && x.req.id in s.active && s.active[x.req.id] == e && x.slotVisible
            && WorkerOf(s, e) < |s.workers| && s.workers[WorkerOf(s, e)].serving.None?
  {
    assert Shape(s.execs[e]) && HoldsIts(s.pools, s.execs[e]) && ServesHolder(s.workers, s.execs[e]);
  }

  // ------------------------------------------------------------ generations and results

  /** Current generations only grow, strictly whenever they change, and retired ones are older. */
  lemma GenerationsIncrease(states: seq<Service>, actions: seq<Action>, i: nat, j: nat)
    requires IsRun(states, actions) && i <= j < |states|
    ensures states[i].current < |states[i].pools| && states[j].current < |states[j].pools|
    ensures var a := states[i].pools[states[i].current].identity;
            var b := states[j].pools[states[j].current].identity;
            if states[i].current == states[j].current then a == b else a.generation < b.generation
    ensures forall p :: p in states[j].retired ==>
              && p < |states[j].pools|
              && states[j].pools[p].identity.generation < states[j].pools[states[j].current].identity.generation
  {
    RunMovesForward(states, actions, i, j);
    RunKeepsInvariant(states, actions, i);
    RunKeepsInvariant(states, actions, j);
    assert states[j].pools[states[i].current].published;
  }

  /**
   A result, once returned, names for ever the generation and schema hash its caller asked for, and so
   does the response inside it if it is marked ok, whatever was reloaded in the meantime.
   */
  lemma ResultsAreExpected(states: seq<Service>, actions: seq<Action>, i: nat, j: nat, e: nat)
    requires IsRun(states, actions) && i <= j < |states| && e < |states[i].execs|
      && states[i].execs[e].outcome.Returned?
    ensures e < |states[j].execs| && states[j].execs[e].outcome == states[i].execs[e].outcome
    ensures var x := states[j].execs[e];
            && x.req == states[i].execs[e].req
            && x.outcome.identity.generation == x.req.expectedGeneration
            && x.outcome.identity.schemaHash == x.req.expectedHash
            && (x.outcome.response.ok ==>
                  && x.outcome.response.generation == x.req.expectedGeneration
                  && x.outcome.response.schemaHash == x.req.expectedHash
                  && x.outcome.response.operation == x.req.operation)
  {
    RunMovesForward(states, actions, i, j);
    RunKeepsInvariant(states, actions, i);
    assert ExecLater(states[i].execs[e], states[j].execs[e]);
    assert ResultSound(states[i].execs[e], states[i].pools[states[i].execs[e].pool].identity);
  }

  /** The current generation keeps distinct workers of one registry identity through reloads and replacements. */
  lemma CurrentPoolIsSound(states: seq<Service>, actions: seq<Action>, i: nat)
    requires IsRun(states, actions) && i < |states|
    ensures var s := states[i];
            && s.current < |s.pools|
            && WellIndexed(s.pools[s.current].slots, s.workers)
            && Distinct(s.pools[s.current].slots, s.workers, s.pools[s.current].identity)
            && (s.ready ==> !s.pools[s.current].closed && !s.pools[s.current].draining)
  {
    RunKeepsInvariant(states, actions, i);
    if states[i].ready { CurrentIsOpen(states[i].pools, states[i].current, states[i].admin); }
  }
}
