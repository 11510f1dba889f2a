/**
 The worker's own final release of the repository lock. It keeps the lock only when it reads
 "cancellation pending", so a run whose status it reads as live loses its lock.
 */
module WorkerRelease {
  import opened Basics
  import opened Traces
  import opened RunStore
  import opened RunProtocol
  import opened RunSafety
  import opened RunTheorems

  /** The run exists and has not ended. */
  ghost predicate Live(db: Db)
  {
    db.row.Some? && !Terminal(db.row.value.status)
  }

  // ------------------------------------------------------------ when the promise holds

  /**
   Looking and then releasing frees the lock of a live run if and only if the status the worker reads is
   neither terminal nor "cancellation pending".
   */
  lemma LookThenRelease(s: Sys, k: nat)
    requires Inv(s) && s.lockRequired && k < |s.workers| && s.workers[k].WExit? && s.db.row.Some?
    requires Locks(s.db, s.workers[k].token, s.workers[k].generation)
    ensures Enabled(s, WLookFinal(k))
    ensures var t, status := Step(s, WLookFinal(k)), s.db.row.value.status;
            (&& Enabled(t, WReleaseLock(k))
             && var u := Step(t, WReleaseLock(k)); u.db.lock.None? && Live(u.db))
            <==> !Terminal(status) && !status.CancellationPending?
  {
  }

  lemma LookAloneLeadsToRelease(s: Sys, a: Action, k: nat)
    requires WEnabled(s, a) && k < |s.workers| && WStep(s, a).workers[k].WRelease? && a != WLookFinal(k)
    ensures s.workers[k] == WStep(s, a).workers[k]
  {
  }

  /** Workers were added at most, each of them new. */
  ghost predicate OnlyAdds(before: seq<Worker>, after: seq<Worker>)
  {
    && |before| <= |after| && (forall k :: 0 <= k < |before| ==> after[k] == before[k])
    && forall k :: |before| <= k < |after| ==> after[k].WNew?
  }

  /** Everybody but a worker itself leaves it where it is. */
  lemma OthersLeaveWorkers(s: Sys, a: Action)
    requires Enabled(s, a) && !WEnabled(s, a)
    ensures OnlyAdds(s.workers, Step(s, a).workers)
  {
    if LEnabled(s, a) {
      LauncherLeavesWorkers(s, a);
    } else if REnabled(s, a) {
      ReconcilersLeaveWorkers(s, a);
    } else if CEnabled(s, a) {
      CancellersLeaveWorkers(s, a);
    }
  }

  lemma ReconcilersLeaveWorkers(s: Sys, a: Action)
    requires REnabled(s, a)
    ensures OnlyAdds(s.workers, RStep(s, a).workers)
  {
    ReconcileTouches(s, a);
  }

  lemma CancellersLeaveWorkers(s: Sys, a: Action)
    requires CEnabled(s, a)
    ensures OnlyAdds(s.workers, CStep(s, a).workers)
  {
  }

  lemma LauncherLeavesWorkers(s: Sys, a: Action)
    requires LEnabled(s, a)
    ensures OnlyAdds(s.workers, LStep(s, a).workers)
  {
  }

  lemma WorkersStep(s: Sys, a: Action)
    requires WEnabled(s, a)
    ensures Enabled(s, a) && Step(s, a) == WStep(s, a) && |WStep(s, a).workers| == |s.workers|
  {
  }

  /** Only its own look makes a worker go on to the release. */
  lemma OnlyLookLeadsToRelease(s: Sys, a: Action, k: nat)
    requires Enabled(s, a) && k < |Step(s, a).workers| && Step(s, a).workers[k].WRelease?
    requires a != WLookFinal(k)
    ensures k < |s.workers| && s.workers[k] == Step(s, a).workers[k]
  {
    if WEnabled(s, a) {
      WorkersStep(s, a);
      LookAloneLeadsToRelease(s, a, k);
    } else {
      OthersLeaveWorkers(s, a);
    }
  }

  /** The look that a release follows, and what it read. */
  lemma {:induction false} LookBefore(states: seq<Sys>, actions: seq<Action>, j: nat, k: nat) returns (i: nat)
    requires IsRun(states, actions) && j < |states| && k < |states[j].workers| && states[j].workers[k].WRelease?
    ensures i < j && actions[i] == WLookFinal(k) && states[i].db.row.Some?
    ensures states[i].lockRequired && !states[i].db.row.value.status.CancellationPending?
  {
    if j > 0 { assert StepAt(states, actions, j - 1); }
    assert j > 0;
    var s, a := states[j - 1], actions[j - 1];
    if a == WLookFinal(k) {
      i := j - 1;
    } else {
      OnlyLookLeadsToRelease(s, a, k);
      i := LookBefore(states, actions, j - 1, k);
    }
  }

  /**
   Over every run: each worker release follows a look of that worker that did not read "cancellation
   pending", and when it frees the lock of a live run the look had read a status that is not terminal
   either. A look that reads a terminal status is followed by a safe release.
   */
  lemma WorkerReleaseNeedsEnd(states: seq<Sys>, actions: seq<Action>, j: nat, k: nat) returns (i: nat)
    requires IsRun(states, actions) && j < |actions| && actions[j] == WReleaseLock(k)
    ensures i < j && actions[i] == WLookFinal(k) && states[i].db.row.Some?
    ensures !states[i].db.row.value.status.CancellationPending?
    ensures Terminal(states[i].db.row.value.status) ==> Finished(states[j].db) && Finished(states[j + 1].db)
    ensures Live(states[j].db) ==> !Terminal(states[i].db.row.value.status)
  {
    assert StepAt(states, actions, j);
    i := LookBefore(states, actions, j, k);
    if Terminal(states[i].db.row.value.status) {
      TerminalStatusIsFinal(states, actions, i, j);
      TerminalStatusIsFinal(states, actions, j, j + 1);
    }
  }

  // ------------------------------------------------------------ the only ways to lose the lock

  lemma LauncherKeepsLock(s: Sys, a: Action)
    requires LEnabled(s, a) && Mine(s.db, s.db.lock) && !Mine(s.db, LStep(s, a).db.lock)
    ensures ManagerRelease(s, a)
  {
  }

  lemma ReconcilerKeepsLock(s: Sys, a: Action)
    requires REnabled(s, a) && Mine(s.db, s.db.lock) && !Mine(s.db, RStep(s, a).db.lock)
    ensures ManagerRelease(s, a)
  {
  }

  lemma CancellerKeepsLock(s: Sys, a: Action)
    requires CEnabled(s, a) && Mine(s.db, s.db.lock) && !Mine(s.db, CStep(s, a).db.lock)
    ensures ManagerRelease(s, a)
  {
  }

  lemma WorkerKeepsLock(s: Sys, a: Action)
    requires WEnabled(s, a) && Mine(s.db, s.db.lock) && !Mine(s.db, WStep(s, a).db.lock)
    ensures a.WReleaseLock?
  {
  }

  /** A step that takes the lock from a live run is a release. */
  lemma OnlyReleasesFree(s: Sys, a: Action)
    requires Enabled(s, a) && Mine(s.db, s.db.lock) && !Mine(s.db, Step(s, a).db.lock) && Live(s.db)
    ensures ManagerRelease(s, a) || (WEnabled(s, a) && a.WReleaseLock?)
  {
    if LEnabled(s, a) {
      LauncherKeepsLock(s, a);
    } else if REnabled(s, a) {
      ReconcilerKeepsLock(s, a);
    } else if CEnabled(s, a) {
      CancellerKeepsLock(s, a);
    } else if WEnabled(s, a) {
      WorkerKeepsLock(s, a);
    }
  }

  /**
   Over every run, a live run loses its repository lock in two ways only: the launcher releases it after
   a create it could not read back, or a worker releases it after reading a status that was neither
   terminal nor "cancellation pending".
   */
  lemma LiveRunLosesLockOnlyBy(states: seq<Sys>, actions: seq<Action>, j: nat) returns (i: nat)
    requires IsRun(states, actions) && j < |actions| && Live(states[j].db)
    requires Mine(states[j].db, states[j].db.lock) && !Mine(states[j].db, states[j + 1].db.lock)
    ensures || (actions[j].LRelease? && states[j].readBackFailed)
            || (&& actions[j].WReleaseLock? && i < j && actions[i] == WLookFinal(actions[j].k) && states[i].db.row.Some?
                && !Terminal(states[i].db.row.value.status) && !states[i].db.row.value.status.CancellationPending?)
  {
    assert StepAt(states, actions, j);
    i := 0;
    OnlyReleasesFree(states[j], actions[j]);
    if ManagerRelease(states[j], actions[j]) {
      ManagerReleaseIsSafe(states, actions, j);
    } else {
      i := WorkerReleaseNeedsEnd(states, actions, j, actions[j].k);
    }
  }

  // ------------------------------------------------------------ runs in which it does not

  /** Steps from an initial state are a run. */
  lemma LeadsIsRun(s: Sys, actions: seq<Action>, t: Sys) returns (states: seq<Sys>)
    requires Initial(s) && Leads(Goes, s, actions, t)
    ensures IsRun(states, actions) && states[0] == s && states[|actions|] == t
  {
    states := LeadsThrough(Goes, s, actions, t);
    forall i: nat | i < |actions| ensures StepAt(states, actions, i) {
      assert Links(Goes, states, actions, i);
    }
  }

  /** A run that the launcher has accepted and spawned a worker for, holding its lock. */
  ghost predicate Accepted(s: Sys)
  {
    && s.lockRequired && s.workers == [WNew(s.token0)] && s.recs == [] && s.issued == {s.token0}
    && s.db.row.Some? && s.db.row.value.status.LaunchPending? && s.db.row.value.token == s.token0
    && s.db.row.value.generation == 1 && Locks(s.db, s.token0, 1)
    && s.cans == [] && Unrecorded(s.db.row.value)
  }

  /** No process, and no launch, is recorded yet. */
  ghost predicate Unrecorded(r: Row)
  {
    NothingRecorded(r) && r.attempts == 0
  }

  lemma Accepts(s: Sys) returns (actions: seq<Action>, t: Sys)
    requires Initial(s) && s.lockRequired && s.db.lock.None?
    ensures Leads(Goes, s, actions, t) && Accepted(t) && t.tool == s.tool && t.launcher == LSpawned(t.db.row.value)
  {
    var s1 := Step(s, LAcquire(1));
    LeadsOne(Goes, s, LAcquire(1), s1);
    var s2 := Step(s1, LCreate(Created, 0, 0));
    LeadsOne(Goes, s1, LCreate(Created, 0, 0), s2);
    LeadsFurther(Goes, s, [LAcquire(1)], s1, [LCreate(Created, 0, 0)], s2);
    actions, t := Spawns(s2);
    LeadsFurther(Goes, s, [LAcquire(1)] + [LCreate(Created, 0, 0)], s2, actions, t);
    actions := [LAcquire(1)] + [LCreate(Created, 0, 0)] + actions;
  }

  lemma Spawns(s: Sys) returns (actions: seq<Action>, t: Sys)
    requires s.launcher.LCreated? && s.lockRequired && s.workers == [] && s.recs == [] && s.issued == {s.token0}
    requires s.db.row.Some? && s.db.row.value.status.LaunchPending? && s.db.row.value.token == s.token0
    requires s.db.row.value.generation == 1 && Locks(s.db, s.token0, 1)
    requires s.cans == [] && Unrecorded(s.db.row.value)
    ensures Leads(Goes, s, actions, t) && Accepted(t) && t.tool == s.tool && t.launcher == LSpawned(t.db.row.value)
  {
    var s1 := Step(s, LBind(false));
    LeadsOne(Goes, s, LBind(false), s1);
    var s2 := Step(s1, LReadIntent(false));
    LeadsOne(Goes, s1, LReadIntent(false), s2);
    t := Step(s2, LSpawn(false));
    LeadsOne(Goes, s2, LSpawn(false), t);
    LeadsFurther(Goes, s, [LBind(false)], s1, [LReadIntent(false)], s2);
    LeadsFurther(Goes, s, [LBind(false)] + [LReadIntent(false)], s2, [LSpawn(false)], t);
    actions := [LBind(false)] + [LReadIntent(false)] + [LSpawn(false)];
  }

  /** The worker has claimed the run and its lock and is at work. */
  ghost predicate Working(s: Sys)
  {
    && s.lockRequired && s.workers == [WRunning(s.token0, 1)] && s.recs == [] && s.issued == {s.token0}
    && s.db.row.Some? && s.db.row.value.status.Running? && s.db.row.value.token == s.token0
    && s.db.row.value.generation == 1 && Locks(s.db, s.token0, 1)
    && s.cans == [] && s.db.row.value.child == 0 && s.db.row.value.launcher == 0 && s.db.row.value.worker == 1
  }

  lemma Claims(s: Sys) returns (actions: seq<Action>, t: Sys)
    requires Accepted(s)
    ensures Leads(Goes, s, actions, t) && Working(t) && t.tool == s.tool
  {
    var s1 := Step(s, WInit(0));
    LeadsOne(Goes, s, WInit(0), s1);
    var s2 := Step(s1, WLook(0));
    LeadsOne(Goes, s1, WLook(0), s2);
    LeadsFurther(Goes, s, [WInit(0)], s1, [WLook(0)], s2);
    actions, t := ClaimsRow(s2);
    LeadsFurther(Goes, s, [WInit(0)] + [WLook(0)], s2, actions, t);
    actions := [WInit(0)] + [WLook(0)] + actions;
  }

  lemma ClaimsRow(s: Sys) returns (actions: seq<Action>, t: Sys)
    requires s.lockRequired && s.recs == [] && s.issued == {s.token0}
    requires s.db.row.Some? && s.db.row.value.status.LaunchPending? && s.db.row.value.token == s.token0
    requires s.db.row.value.generation == 1 && Locks(s.db, s.token0, 1)
    requires s.workers == [WRead(s.token0, 1, s.db.row.value.version)]
    requires s.cans == [] && s.db.row.value.child == 0 && s.db.row.value.launcher == 0
    ensures Leads(Goes, s, actions, t) && Working(t) && t.tool == s.tool
  {
    var a := WClaim(0, 1, 1, 0, 0);
    var s1 := Step(s, a);
    LeadsOne(Goes, s, a, s1);
    t := ClaimsLock(s1);
    LeadsFurther(Goes, s, [a], s1, [WLock(0, 1)], t);
    actions := [a] + [WLock(0, 1)];
  }

  lemma ClaimsLock(s: Sys) returns (t: Sys)
    requires s.lockRequired && s.recs == [] && s.issued == {s.token0} && s.workers == [WClaimed(s.token0, 1)]
    requires s.db.row.Some? && s.db.row.value.status.Running? && s.db.row.value.token == s.token0
    requires s.db.row.value.generation == 1 && Locks(s.db, s.token0, 1)
    requires s.cans == [] && s.db.row.value.child == 0 && s.db.row.value.launcher == 0 && s.db.row.value.worker == 1
    ensures Leads(Goes, s, [WLock(0, 1)], t) && Working(t) && t.tool == s.tool
  {
    t := Step(s, WLock(0, 1));
    LeadsOne(Goes, s, WLock(0, 1), t);
  }

  /** The worker is about to record its result, but the row has moved on since it looked. */
  ghost predicate Overtaken(s: Sys)
  {
    && s.lockRequired && |s.workers| == 1 && s.workers[0].WFinal? && s.db.row.Some?
    && s.workers[0] == WFinal(s.token0, 1, s.workers[0].version, Completed)
    && s.workers[0].version != s.db.row.value.version && Locks(s.db, s.token0, 1)
  }

  lemma CommitIsLost(s: Sys)
    requires Overtaken(s)
    ensures Enabled(s, WCommit(0, 0, false))
    ensures Step(s, WCommit(0, 0, false)) == s.(workers := [WExit(s.token0, 1)])
  {
    assert s.workers[0 := WExit(s.token0, 1)] == [WExit(s.token0, 1)];
  }

  lemma LooksAndReleases(s: Sys) returns (t: Sys)
    requires s.lockRequired && s.workers == [WExit(s.token0, 1)] && Locks(s.db, s.token0, 1)
    requires Live(s.db) && !s.db.row.value.status.CancellationPending?
    ensures Leads(Goes, s, [WLookFinal(0)] + [WReleaseLock(0)], t)
    ensures t.db.row.Some? && t.db.row.value.status == s.db.row.value.status && t.db.lock.None?
  {
    var mid := Step(s, WLookFinal(0));
    LeadsOne(Goes, s, WLookFinal(0), mid);
    t := Step(mid, WReleaseLock(0));
    LeadsOne(Goes, mid, WReleaseLock(0), t);
    LeadsFurther(Goes, s, [WLookFinal(0)], mid, [WReleaseLock(0)], t);
  }

  /** Its update is lost, it reads a live status, and it gives the lock away. */
  lemma GivesLockAway(s: Sys) returns (actions: seq<Action>, t: Sys)
    requires Overtaken(s) && Live(s.db) && !s.db.row.value.status.CancellationPending?
    ensures Leads(Goes, s, actions, t)
    ensures t.db.row.Some? && t.db.row.value.status == s.db.row.value.status && t.db.lock.None?
  {
    CommitIsLost(s);
    var mid := s.(workers := [WExit(s.token0, 1)]);
    LeadsOne(Goes, s, WCommit(0, 0, false), mid);
    t := LooksAndReleases(mid);
    actions := [WCommit(0, 0, false)] + ([WLookFinal(0)] + [WReleaseLock(0)]);
    LeadsFurther(Goes, s, [WCommit(0, 0, false)], mid, [WLookFinal(0)] + [WReleaseLock(0)], t);
  }

  /** An event is noted between the worker's read and its update. */
  lemma IsOvertakenByNote(s: Sys) returns (actions: seq<Action>, t: Sys)
    requires Working(s)
    ensures Leads(Goes, s, actions, t) && Overtaken(t) && t.db.row.value.status.Running?
  {
    var note := Note(s.db.row.value.phase + 1, 0);
    var s1 := Step(s, WReadFinal(0, Completed));
    LeadsOne(Goes, s, WReadFinal(0, Completed), s1);
    t := Step(s1, note);
    LeadsOne(Goes, s1, note, t);
    LeadsFurther(Goes, s, [WReadFinal(0, Completed)], s1, [note], t);
    actions := [WReadFinal(0, Completed)] + [note];
  }

  /** A reconciler sees a live child without a verified worker and contains the run. */
  lemma IsOvertakenByContainment(s: Sys) returns (actions: seq<Action>, t: Sys)
    requires Working(s) && !s.tool.Remote?
    ensures Leads(Goes, s, actions, t) && Overtaken(t) && t.db.row.value.status.RecoveryPending?
  {
    var act := RAct(0, Probes(false, false, true, RemoteUncertain), s.token0 + 1, 1, 0, 0);
    var s1 := Step(s, RBegin);
    LeadsOne(Goes, s, RBegin, s1);
    var s2 := Step(s1, WReadFinal(0, Completed));
    LeadsOne(Goes, s1, WReadFinal(0, Completed), s2);
    t := Step(s2, act);
    LeadsOne(Goes, s2, act, t);
    LeadsFurther(Goes, s, [RBegin], s1, [WReadFinal(0, Completed)], s2);
    LeadsFurther(Goes, s, [RBegin] + [WReadFinal(0, Completed)], s2, [act], t);
    actions := [RBegin] + [WReadFinal(0, Completed)] + [act];
  }

  /** From every initial state with a free lock the worker can be brought to work. */
  lemma Starts(s: Sys) returns (actions: seq<Action>, t: Sys)
    requires Initial(s) && s.lockRequired && s.db.lock.None?
    ensures Leads(Goes, s, actions, t) && Working(t) && t.tool == s.tool
  {
    var first, mid := Accepts(s);
    var second;
    second, t := Claims(mid);
    LeadsFurther(Goes, s, first, mid, second, t);
    actions := first + second;
  }

  lemma EndsUnlocked(s: Sys, first: seq<Action>, mid: Sys) returns (states: seq<Sys>, actions: seq<Action>)
    requires Initial(s) && Leads(Goes, s, first, mid)
    requires Overtaken(mid) && Live(mid.db) && !mid.db.row.value.status.CancellationPending?
    ensures IsRun(states, actions) && states[0] == s
    ensures var t := states[|actions|];
      t.db.lock.None? && t.db.row.Some? && t.db.row.value.status == mid.db.row.value.status
  {
    var last, t := GivesLockAway(mid);
    LeadsFurther(Goes, s, first, mid, last, t);
    actions := first + last;
    states := LeadsIsRun(s, actions, t);
  }

  /** A run from the start that ends with a running run and no lock: one noted event is enough. */
  lemma RunningRunLosesLock(s: Sys) returns (states: seq<Sys>, actions: seq<Action>)
    requires Initial(s) && s.lockRequired && s.db.lock.None?
    ensures IsRun(states, actions) && states[0] == s
    ensures var t := states[|actions|]; t.db.lock.None? && t.db.row.Some? && t.db.row.value.status.Running?
  {
    var first, working := Starts(s);
    var second, mid := IsOvertakenByNote(working);
    LeadsFurther(Goes, s, first, working, second, mid);
    states, actions := EndsUnlocked(s, first + second, mid);
  }

  /** A run from the start that ends with a contained run and no lock. */
  lemma ContainedRunLosesLock(s: Sys) returns (states: seq<Sys>, actions: seq<Action>)
    requires Initial(s) && s.lockRequired && s.db.lock.None? && !s.tool.Remote?
    ensures IsRun(states, actions) && states[0] == s
    ensures var t := states[|actions|]; t.db.lock.None? && t.db.row.Some? && t.db.row.value.status.RecoveryPending?
  {
    var first, working := Starts(s);
    var second, mid := IsOvertakenByContainment(working);
    LeadsFurther(Goes, s, first, working, second, mid);
    states, actions := EndsUnlocked(s, first + second, mid);
  }
}
