/** Nothing the Hermes service does can leave a retired generation stuck open. */
module HermesProgress {
  import opened Basics
  import opened Traces
  import opened GenerationPool
  import opened HermesService
  import opened HermesInvariant
  import opened HermesPreservation
  import opened HermesTheorems

  function Rank(pc: Pc): nat
  {
    match pc
    case Retained => 8
    case Registered => 7
    case Leased => 6
    case Published => 5
    case Dispatched => 4
    case Popping => 3
    case Releasing => 2
    case Dropping => 1
    case Done => 0
  }

  function TotalRank(execs: seq<Exec>): nat
  {
    if execs == [] then 0 else Rank(execs[0].pc) + TotalRank(execs[1..])
  }

  lemma {:induction false} RankDrops(execs: seq<Exec>, e: nat, x: Exec)
    requires e < |execs| && Rank(x.pc) < Rank(execs[e].pc)
    ensures TotalRank(execs[e := x]) < TotalRank(execs)
  {
    if e == 0 {
      assert execs[e := x][1..] == execs[1..];
    } else {
      RankDrops(execs[1..], e - 1, x);
      assert execs[e := x][1..] == execs[1..][e - 1 := x];
    }
  }

  /** Scanning the slots finds the first available one, or shows that there is none. */
  lemma {:induction false} ScanDecides(slots: seq<Slot>, workers: seq<Worker>, k: nat) returns (i: nat)
    requires WellIndexed(slots, workers) && k <= |slots|
    requires forall j :: 0 <= j < k ==> !Available(slots[j], workers)
    ensures i <= |slots|
    ensures i < |slots| ==> FirstAvailable(slots, workers, i)
    ensures i == |slots| ==> NoneAvailable(slots, workers)
    decreases |slots| - k
  {
    if k == |slots| || Available(slots[k], workers) { i := k; } else { i := ScanDecides(slots, workers, k + 1); }
  }

  predicate IsOwnStep(a: Action, e: nat)
  {
    a == Register(e) || a == GiveUpLease(e) || a == Publish(e) || a == Dispatch(e) || a == Pop(e) || a == GiveBack(e)
    || a == Drop(e) || (a.Lease? && a.e == e) || (a.Finish? && a.e == e)
  }

  ghost predicate Advanced(s: Service, t: Service, e: nat)
  {
    && e < |s.execs| == |t.execs| && t.execs == s.execs[e := t.execs[e]]
    && Rank(t.execs[e].pc) < Rank(s.execs[e].pc) && t.admin == s.admin
  }

  lemma MoveAdvances(s: Service, t: Service, e: nat, x: Exec)
    requires e < |s.execs| && t.execs == s.execs[e := x] && Rank(x.pc) < Rank(s.execs[e].pc) && t.admin == s.admin
    ensures Advanced(s, t, e)
  {
  }

  lemma DropAdvances(s: Service, e: nat, x: Exec)
    requires e < |s.execs| && s.execs[e].pool < |s.pools| && !s.execs[e].pc.Done?
    ensures Advanced(s, DropReferenceOf(s, e, x), e)
  {
    var t := DropReferenceOf(s, e, x);
    MoveAdvances(s, t, e, t.execs[e]);
  }

  lemma GiveBackAdvances(s: Service, e: nat)
    requires Enabled(s, GiveBack(e))
    ensures Advanced(s, GiveBackStep(s, e), e)
  {
    var t := GiveBackStep(s, e);
    MoveAdvances(s, t, e, t.execs[e]);
  }

  /** Whatever branch an execution's own region takes, the execution gets closer to its end. */
  lemma OwnStepAdvances(s: Service, a: Action, e: nat)
    requires Enabled(s, a) && IsOwnStep(a, e) && e < |s.execs|
    ensures Advanced(s, Step(s, a), e)
  {
    if a == GiveBack(e) {
      GiveBackAdvances(s, e);
    } else if a == Drop(e) {
      DropAdvances(s, e, s.execs[e]);
    } else if a == Register(e) {
      if s.execs[e].req.id in s.active { DropAdvances(s, e, s.execs[e].(outcome := DuplicateRequest)); }
    } else if a == Dispatch(e) || a.Finish? || a == Pop(e) {
      ServiceAdvances(s, a, e);
    } else {
      AdmissionAdvances(s, a, e);
    }
  }

  lemma AdmissionAdvances(s: Service, a: Action, e: nat)
    requires Enabled(s, a) && e < |s.execs| && (a == GiveUpLease(e) || a == Publish(e) || (a.Lease? && a.e == e))
    ensures Advanced(s, Step(s, a), e)
  {
    MoveAdvances(s, Step(s, a), e, Step(s, a).execs[e]);
  }

  lemma ServiceAdvances(s: Service, a: Action, e: nat)
    requires Enabled(s, a) && e < |s.execs| && (a == Dispatch(e) || a == Pop(e) || (a.Finish? && a.e == e))
    ensures Advanced(s, Step(s, a), e)
  {
    MoveAdvances(s, Step(s, a), e, Step(s, a).execs[e]);
  }

  /**
   A running execution has a region of its own it can take next, provided the worker exchange it is in,
   if any, comes to an end. The wait for a slot is bounded by the request's own timeout.
   */
  lemma OwnStep(s: Service, e: nat) returns (a: Action)
    requires ExecsIndexed(s.pools, s.execs) && Shaped(s.execs) && Held(s.pools, s.execs)
      && Identified(s.pools, s.workers)
    requires Counted(s.pools, s.execs) && Lifecycles(s.pools) && e < |s.execs| && !s.execs[e].pc.Done?
    ensures Enabled(s, a) && IsOwnStep(a, e) && (a.Finish? <==> s.execs[e].pc.Dispatched?)
  {
    var x := s.execs[e];
    assert Shape(x) && HoldsIts(s.pools, x);
    assert WellIndexed(s.pools[x.pool].slots, s.workers);
    match x.pc
    case Retained => a := Register(e);
    case Registered =>
      var i := ScanDecides(s.pools[x.pool].slots, s.workers, 0);
      PinnedIsOpen(s.pools, s.execs, e);
      a := if i < |s.pools[x.pool].slots| then Lease(e, i) else GiveUpLease(e);
    case Leased => a := Publish(e);
    case Published => a := Dispatch(e);
    case Dispatched => a := Finish(e, None);
    case Popping => a := Pop(e);
    case Releasing => a := GiveBack(e);
    case Dropping => a := Drop(e);
  }

  /** From every reachable state the running executions can all finish, provided worker exchanges end. */
  lemma {:induction false} ExecutionsFinish(s: Service) returns (actions: seq<Action>, t: Service)
    requires Inv(s)
    ensures Leads(Goes, s, actions, t) && Inv(t) && t.admin == s.admin
    ensures forall e :: 0 <= e < |t.execs| ==> t.execs[e].pc.Done?
    decreases TotalRank(s.execs)
  {
    if e :| 0 <= e < |s.execs| && !s.execs[e].pc.Done? {
      var a := OwnStep(s, e);
      StepKeeps(s, a);
      OwnStepAdvances(s, a, e);
      RankDrops(s.execs, e, Step(s, a).execs[e]);
      var rest;
      rest, t := ExecutionsFinish(Step(s, a));
      actions := [a] + rest;
    } else {
      actions, t := [], s;
    }
  }

  ghost function AdminRank(admin: Admin): nat
  {
    match admin
    case Idle => 0
    case Abandoning(_) => 1
    case Candidate(_) => 2
    case Draining(todo) => |todo|
  }

  lemma {:induction false} AdministratorFinishes(s: Service) returns (actions: seq<Action>, t: Service)
    requires Inv(s) && forall e :: 0 <= e < |s.execs| ==> s.execs[e].pc.Done?
    ensures Leads(Goes, s, actions, t) && Inv(t) && t.admin.Idle?
    ensures forall e :: 0 <= e < |t.execs| ==> t.execs[e].pc.Done?
    decreases AdminRank(s.admin)
  {
    if s.admin.Idle? {
      actions, t := [], s;
    } else if s.admin.Candidate? {
      // A candidate that is not published is abandoned; one that is published has one generation to drain.
      actions, t := CandidateFinishes(s);
    } else {
      var a := AdministratorStep(s);
      StepKeeps(s, a);
      var rest;
      rest, t := AdministratorFinishes(Step(s, a));
      actions := [a] + rest;
    }
  }

  lemma AdministratorStep(s: Service) returns (a: Action)
    requires Lifetimes(s) && (s.admin.Draining? || s.admin.Abandoning?)
    ensures Enabled(s, a) && Step(s, a).execs == s.execs && AdminRank(Step(s, a).admin) < AdminRank(s.admin)
  {
    if s.admin.Draining? {
      assert s.admin.todo[0] in s.admin.todo;
      a := DrainNext;
    } else {
      a := AbandonCandidate;
    }
  }

  lemma CandidateSettles(s: Service)
    requires Enabled(s, PublishCandidate)
    ensures var u := Step(s, PublishCandidate);
            && u.execs == s.execs
            && (u.admin == Abandoning(s.admin.pool) || u.admin == Draining([s.current]))
            && (u.admin.Draining? ==>
              Enabled(u, DrainNext) && Step(u, DrainNext).admin.Idle? && Step(u, DrainNext).execs == s.execs)
            && (u.admin.Abandoning? ==>
              Enabled(u, AbandonCandidate) && Step(u, AbandonCandidate).admin.Idle?
              && Step(u, AbandonCandidate).execs == s.execs)
  {
  }

  lemma CandidateFinishes(s: Service) returns (actions: seq<Action>, t: Service)
    requires Inv(s) && s.admin.Candidate? && forall e :: 0 <= e < |s.execs| ==> s.execs[e].pc.Done?
    ensures Leads(Goes, s, actions, t) && Inv(t) && t.admin.Idle?
    ensures forall e :: 0 <= e < |t.execs| ==> t.execs[e].pc.Done?
  {
    var u := Step(s, PublishCandidate);
    CandidateSettles(s);
    var last := if u.admin.Draining? then DrainNext else AbandonCandidate;
    assert Inv(u) by { StepKeeps(s, PublishCandidate); }
    t := Step(u, last);
    assert Inv(t) by { StepKeeps(u, last); }
    actions := [PublishCandidate, last];
    TwoSteps(s, PublishCandidate, last);
  }

  lemma TwoSteps(s: Service, a: Action, b: Action)
    requires Enabled(s, a) && Enabled(Step(s, a), b)
    ensures Leads(Goes, s, [a, b], Step(Step(s, a), b))
  {
    var t := Step(Step(s, a), b);
    assert [a, b][1..] == [b] && [b][1..] == [];
    assert Leads(Goes, t, [], t) && Leads(Goes, Step(s, a), [b], t);
  }

  /**
   From every state of every run some continuation finishes all executions and leaves every
   generation but a current one closed: no interleaving can leak a retired generation.
   */
  lemma RetiredGenerationsCanClose(states: seq<Service>, actions: seq<Action>, i: nat)
    returns (more: seq<Action>, t: Service)
    requires IsRun(states, actions) && i < |states|
    ensures Leads(Goes, states[i], more, t)
    ensures forall e :: 0 <= e < |t.execs| ==> t.execs[e].pc.Done?
    ensures forall p :: 0 <= p < |t.pools| && (p != t.current || !t.ready) ==> t.pools[p].closed
  {
    RunKeepsInvariant(states, actions, i);
    var first, mid := ExecutionsFinish(states[i]);
    var second;
    second, t := AdministratorFinishes(mid);
    more := first + second;
    LeadsFurther(Goes, states[i], first, mid, second, t);
    QuiescentCloses(t);
  }
}
