/** The durable run protocol over whole runs. */
module RunTheorems {
  import opened Basics
  import opened RunStore
  import opened RunProtocol
  import opened RunSafety

  ghost predicate StepAt(states: seq<Sys>, actions: seq<Action>, i: nat)
    requires i < |actions| && |states| == |actions| + 1
  {
    Enabled(states[i], actions[i]) && states[i + 1] == Step(states[i], actions[i])
  }

  ghost predicate IsRun(states: seq<Sys>, actions: seq<Action>)
  {
    && |states| == |actions| + 1
    && Initial(states[0])
    && forall i: nat :: i < |actions| ==> StepAt(states, actions, i)
  }

  lemma {:induction false} RunKeepsInvariant(states: seq<Sys>, actions: seq<Action>, i: nat)
    requires IsRun(states, actions) && i < |states|
    ensures Inv(states[i])
  {
    if i > 0 { assert StepAt(states, actions, i - 1); }
    if i > 0 {
      RunKeepsInvariant(states, actions, i - 1);
      StepKeeps(states[i - 1], actions[i - 1]);
    }
  }

  lemma {:induction false} RunMovesForward(states: seq<Sys>, actions: seq<Action>, i: nat, j: nat)
    requires IsRun(states, actions) && i <= j < |states|
    ensures LaterDb(states[i].db, states[j].db)
  {
    if i < j { assert StepAt(states, actions, j - 1); }
    if i < j {
      RunMovesForward(states, actions, i, j - 1);
      RunKeepsInvariant(states, actions, j - 1);
      StepKeeps(states[j - 1], actions[j - 1]);
      LaterDbTransitive(states[i].db, states[j - 1].db, states[j].db);
    }
  }

  // ------------------------------------------------------------ one terminal transition

  ghost predicate Ends(s: Sys, t: Sys)
  {
    !Finished(s.db) && Finished(t.db)
  }

  /** A finished run keeps the status it finished with. */
  lemma TerminalStatusIsFinal(states: seq<Sys>, actions: seq<Action>, i: nat, j: nat)
    requires IsRun(states, actions) && i <= j < |states| && Finished(states[i].db)
    ensures Finished(states[j].db) && states[j].db.row.value.status == states[i].db.row.value.status
  {
    RunMovesForward(states, actions, i, j);
  }

  /** Whatever launchers, workers, cancellers and reconcilers do, a run gets at most one terminal transition. */
  lemma AtMostOneTerminalTransition(states: seq<Sys>, actions: seq<Action>, i: nat, j: nat)
    requires IsRun(states, actions) && i < |actions| && j < |actions|
    requires Ends(states[i], states[i + 1]) && Ends(states[j], states[j + 1])
    ensures i == j
  {
    if i < j { RunMovesForward(states, actions, i + 1, j); }
    if j < i { RunMovesForward(states, actions, j + 1, i); }
  }

  // ------------------------------------------------------------ one claim

  /** The run is past the point where a worker may claim it. */
  ghost predicate Begun(db: Db)
  {
    db.row.Some? && !db.row.value.status.LaunchPending? && !db.row.value.status.Queued?
  }

  lemma LauncherStaysBegun(s: Sys, a: Action)
    requires LEnabled(s, a) && Begun(s.db)
    ensures Begun(LStep(s, a).db)
  {
  }

  lemma ReconcilerDecisionStaysBegun(s: Sys, a: Action)
    requires REnabled(s, a) && a.RAct? && Begun(s.db)
    ensures Begun(RStep(s, a).db)
  {
  }

  lemma ReconcilerStaysBegun(s: Sys, a: Action)
    requires REnabled(s, a) && !a.RAct? && Begun(s.db)
    ensures Begun(RStep(s, a).db)
  {
  }

  lemma CancellerStaysBegun(s: Sys, a: Action)
    requires CEnabled(s, a) && Begun(s.db)
    ensures Begun(CStep(s, a).db)
  {
  }

  lemma WorkerStaysBegun(s: Sys, a: Action)
    requires WEnabled(s, a) && Begun(s.db) && forall k :: 0 <= k < |s.workers| ==> WorkerSound(s.db, s.workers[k])
    ensures Begun(WStep(s, a).db)
  {
  }

  lemma EnvironmentStaysBegun(s: Sys, a: Action)
    requires EEnabled(s, a) && Begun(s.db)
    ensures Begun(EStep(s, a).db)
  {
  }

  lemma StaysBegun(s: Sys, a: Action)
    requires Inv(s) && Enabled(s, a) && Begun(s.db)
    ensures Begun(Step(s, a).db)
  {
    if LEnabled(s, a) {
      LauncherStaysBegun(s, a);
    } else if REnabled(s, a) {
      if a.RAct? { ReconcilerDecisionStaysBegun(s, a); } else { ReconcilerStaysBegun(s, a); }
    } else if CEnabled(s, a) {
      CancellerStaysBegun(s, a);
    } else if WEnabled(s, a) {
      WorkerStaysBegun(s, a);
    } else {
      EnvironmentStaysBegun(s, a);
    }
  }

  lemma {:induction false} RunStaysBegun(states: seq<Sys>, actions: seq<Action>, i: nat, j: nat)
    requires IsRun(states, actions) && i <= j < |states| && Begun(states[i].db)
    ensures Begun(states[j].db)
  {
    if i < j { assert StepAt(states, actions, j - 1); }
    if i < j {
      RunStaysBegun(states, actions, i, j - 1);
      RunKeepsInvariant(states, actions, j - 1);
      StaysBegun(states[j - 1], actions[j - 1]);
    }
  }

  /** A worker takes the run on. */
  ghost predicate TakesOn(s: Sys, a: Action)
  {
    a.WClaim? && WEnabled(s, a) && Updates(s.db, ClaimGuard(s.workers[a.k]))
  }

  lemma ClaimBegins(s: Sys, a: Action)
    requires TakesOn(s, a)
    ensures !Begun(s.db) && Enabled(s, a) && Begun(Step(s, a).db)
  {
  }

  /** However often the run is relaunched and the service restarted, at most one worker ever claims it. */
  lemma AtMostOneClaim(states: seq<Sys>, actions: seq<Action>, i: nat, j: nat)
    requires IsRun(states, actions) && i < |actions| && j < |actions|
    requires TakesOn(states[i], actions[i]) && TakesOn(states[j], actions[j])
    ensures i == j
  {
    assert StepAt(states, actions, i) && StepAt(states, actions, j);
    ClaimBegins(states[i], actions[i]);
    ClaimBegins(states[j], actions[j]);
    if i < j { RunStaysBegun(states, actions, i + 1, j); }
    if j < i { RunStaysBegun(states, actions, j + 1, i); }
  }

  /** Equal versions mean equal decisions: nothing a guard looks at changes without the version changing. */
  lemma VersionIdentifiesState(states: seq<Sys>, actions: seq<Action>, i: nat, j: nat)
    requires IsRun(states, actions) && i <= j < |states| && states[i].db.row.Some?
    ensures states[j].db.row.Some? && states[i].db.row.value.version <= states[j].db.row.value.version
    ensures states[i].db.row.value.version == states[j].db.row.value.version ==>
              ControlOf(states[i].db.row.value) == ControlOf(states[j].db.row.value)
  {
    RunMovesForward(states, actions, i, j);
  }

  // ------------------------------------------------------------ leases

  /** Lock and run never disagree about the lease, and no run is launched more than twice. */
  lemma LeaseIsConsistent(states: seq<Sys>, actions: seq<Action>, i: nat)
    requires IsRun(states, actions) && i < |states| && states[i].db.row.Some?
    ensures var r := states[i].db.row.value;
            && r.attempts <= 2 && 1 <= r.generation <= 3
            && (Mine(states[i].db, states[i].db.lock) ==>
                  states[i].db.lock.value.token == r.token && states[i].db.lock.value.generation == r.generation)
  {
    RunKeepsInvariant(states, actions, i);
  }

  ghost predicate Reserves(s: Sys, a: Action)
  {
    && a.RAct? && REnabled(s, a)
    && var snap := s.recs[a.k].snap;
    && Decide(s.tool, snap, a.probes).Relaunch?
    && CanReserve(s.db, {snap.status}, snap.version, snap.token, snap.generation)
  }

  /**
   Once a relaunch is reserved, nothing that still carries the old lease generation can write the
   run, reserve it again or address its lock, for the rest of the run.
   */
  lemma ReservationFencesOldLease(states: seq<Sys>, actions: seq<Action>, i: nat, j: nat, g: Guard, n: nat,
    token: Token)
    requires IsRun(states, actions) && i < j < |states| && Reserves(states[i], actions[i])
    requires n <= states[i].recs[actions[i].k].snap.generation && g.generation == Some(n)
    ensures !Updates(states[j].db, g)
    ensures !Locks(states[j].db, token, n)
    ensures forall statuses, version :: !CanReserve(states[j].db, statuses, version, token, n)
  {
    assert StepAt(states, actions, i);
    RunMovesForward(states, actions, i + 1, j);
    RunKeepsInvariant(states, actions, j);
    ReservationRaises(states[i], actions[i]);
  }

  lemma ReservationRaises(s: Sys, a: Action)
    requires Reserves(s, a)
    ensures Enabled(s, a)
    ensures var t := Step(s, a);
            t.db.row.Some? && t.db.row.value.generation == s.recs[a.k].snap.generation + 1
              && t.db.row.value.token == a.newToken
  {
    assert RStep(s, a) == RActStep(s, a.k, a.probes, a.newToken, a.owner, a.now, a.phase);
  }

  // ------------------------------------------------------------ the repository lock

  ghost predicate ManagerRelease(s: Sys, a: Action)
  {
    || (a.LRelease? && LEnabled(s, a) && Locks(s.db, s.launcher.token, s.launcher.generation))
    || (a.RReleaseLock? && REnabled(s, a) && Locks(s.db, s.recs[a.k].token, s.recs[a.k].generation))
    || (a.CReleaseLock? && CEnabled(s, a) && Locks(s.db, s.cans[a.k].token, s.cans[a.k].generation))
  }

  lemma ReconcilerLeavesMark(s: Sys, a: Action)
    requires REnabled(s, a)
    ensures RStep(s, a).readBackFailed == s.readBackFailed
  {
  }

  lemma CancellerLeavesMark(s: Sys, a: Action)
    requires CEnabled(s, a)
    ensures CStep(s, a).readBackFailed == s.readBackFailed
  {
  }

  lemma WorkerLeavesMark(s: Sys, a: Action)
    requires WEnabled(s, a)
    ensures WStep(s, a).readBackFailed == s.readBackFailed
  {
  }

  lemma LauncherMarks(s: Sys, a: Action)
    requires LEnabled(s, a)
    ensures LStep(s, a).readBackFailed ==> s.readBackFailed || LStep(s, a).db.row.Some?
  {
  }

  /** The mark of an unread create appears only together with the row. */
  lemma MarkComesWithRow(s: Sys, a: Action)
    requires Enabled(s, a) && Step(s, a).readBackFailed && !s.readBackFailed
    ensures Step(s, a).db.row.Some?
  {
    if LEnabled(s, a) {
      LauncherMarks(s, a);
    } else if REnabled(s, a) {
      ReconcilerLeavesMark(s, a);
    } else if CEnabled(s, a) {
      CancellerLeavesMark(s, a);
    } else if WEnabled(s, a) {
      WorkerLeavesMark(s, a);
    }
  }

  /** A create whose read-back raised did create the row. */
  lemma {:induction false} UnreadCreateExists(states: seq<Sys>, actions: seq<Action>, i: nat)
    requires IsRun(states, actions) && i < |states| && states[i].readBackFailed
    ensures states[i].db.row.Some?
  {
    if i > 0 { assert StepAt(states, actions, i - 1); }
    if i > 0 {
      var s, a := states[i - 1], actions[i - 1];
      if s.readBackFailed {
        UnreadCreateExists(states, actions, i - 1);
        RunMovesForward(states, actions, i - 1, i);
      } else {
        MarkComesWithRow(s, a);
      }
    }
  }

  /**
   An explicit release by launcher, reconciler or canceller that frees the run's lock frees the lock of
   a live run exactly when it is the launcher's, after a create that could not be read back, and the
   run has not ended meanwhile.
   */
  lemma ManagerReleaseIsSafe(states: seq<Sys>, actions: seq<Action>, i: nat)
    requires IsRun(states, actions) && i < |actions| && ManagerRelease(states[i], actions[i])
    ensures Mine(states[i].db, states[i].db.lock) && !Mine(states[i + 1].db, states[i + 1].db.lock)
    ensures states[i].db.row.Some? && !Finished(states[i].db) <==>
            actions[i].LRelease? && states[i].readBackFailed && !Finished(states[i].db)
  {
    assert StepAt(states, actions, i);
    RunKeepsInvariant(states, actions, i);
    var s := states[i];
    var a := actions[i];
    if a.RReleaseLock? { assert RecSound(s.db, s.recs[a.k]); }
    if a.CReleaseLock? { assert CanSound(s.tool, s.db, s.cans[a.k]); }
    if s.readBackFailed { UnreadCreateExists(states, actions, i); }
  }

  /** The exception is real: a create whose read-back raises leaves a live run without its lock. */
  lemma UnreadCreateLosesLock(s: Sys, owner: Pid, now: Token, phase: Token)
    requires Initial(s) && s.lockRequired && s.db.lock.None?
    ensures Enabled(s, LAcquire(owner))
    ensures var t := Step(s, LAcquire(owner));
            && Enabled(t, LCreate(CreatedUnread, now, phase))
            && var u := Step(t, LCreate(CreatedUnread, now, phase));
            && Enabled(u, LRelease) && ManagerRelease(u, LRelease)
            && var v := Step(u, LRelease);
            && v.db.lock.None? && v.db.row.Some? && v.db.row.value.status.LaunchPending?
  {
  }

  // ------------------------------------------------------------ cancellation

  ghost predicate ReportedDead(reports: seq<Report>, pid: Pid)
  {
    exists i :: 0 <= i < |reports| && reports[i].pid == pid && reports[i].terminated
  }

  /** Reports that cover the targets and all say "terminated" account for every recorded process. */
  lemma CoveredIsDead(r: Row, reports: seq<Report>, pid: Pid)
    requires Covers(reports, Targets(r)) && AllTerminated(reports)
    requires pid > 0 && (pid == r.child || pid == r.worker || pid == r.launcher)
    ensures ReportedDead(reports, pid)
  {
    var targets := Targets(r);
    var children := if r.child > 0 then 1 else 0;
    var workers := if r.worker > 0 && r.worker != r.child then 1 else 0;
    var i := if pid == r.child then 0 else if pid == r.worker then children else children + workers;
    assert targets[i].1 == pid;
    assert reports[i].pid == pid && reports[i].terminated;
  }

  ghost predicate NothingRecorded(r: Row)
  {
    r.child == 0 && r.worker == 0 && r.launcher == 0
  }

  /**
   What proves that nothing of the run is left. Locally: every recorded process is reported terminated, or
   none is recorded and the run was not running. Remotely: nothing was ever launched, or no worker is
   attached and the identified remote end was terminated under a contract, its completion persisted, and
   a live local child terminated.
   */
  ghost predicate Suffices(tool: Tool, snap: Row, ev: Evidence)
  {
    if tool.Remote? then
      || NothingRecorded(snap)
      || (&& !(snap.worker > 0 && ev.workerRunning)
          && ev.remoteKnown && tool.hasContract && ev.remoteTerminated && ev.completionPersisted
          && (snap.child > 0 && ev.childRunning ==> ev.childTerminated))
    else if NothingRecorded(snap) then
      snap.status.NotStarted? || snap.status.LaunchPending? || snap.status.Queued? || snap.status.RecoveryPending?
    else
      forall pid: Pid :: pid > 0 && (pid == snap.child || pid == snap.worker || pid == snap.launcher) ==>
        ReportedDead(ev.reports, pid)
  }

  lemma TargetsApart(r: Row)
    ensures forall i, j :: 0 <= i < j < |Targets(r)| ==> Targets(r)[i].1 != Targets(r)[j].1
    ensures forall i :: 0 <= i < |Targets(r)| ==>
      Targets(r)[i].1 > 0 && (Targets(r)[i].1 == r.child || Targets(r)[i].1 == r.worker
        || Targets(r)[i].1 == r.launcher)
    ensures Targets(r) == [] <==> NothingRecorded(r)
  {
  }

  /** The decision of `cancel_run` is exactly that its evidence suffices. */
  lemma ConfirmedIffSuffices(tool: Tool, snap: Row, ev: Evidence)
    requires !tool.Remote? ==> Covers(ev.reports, Targets(snap))
    ensures Confirmed(tool, snap, ev) <==> Suffices(tool, snap, ev)
  {
    if !tool.Remote? {
      TargetsApart(snap);
      if AllTerminated(ev.reports) {
        forall pid: Pid | pid > 0 && (pid == snap.child || pid == snap.worker || pid == snap.launcher)
          ensures ReportedDead(ev.reports, pid)
        {
          CoveredIsDead(snap, ev.reports, pid);
        }
      } else if !NothingRecorded(snap) {
        var i :| 0 <= i < |ev.reports| && !ev.reports[i].terminated;
        var targets, pid := Targets(snap), ev.reports[i].pid;
        assert targets[i].1 == pid;
        assert forall j :: 0 <= j < |ev.reports| && ev.reports[j].pid == pid ==> targets[j].1 == pid && j == i;
        assert !ReportedDead(ev.reports, pid);
      }
    }
  }

  /** Canceller `k` makes the run cancelled. */
  ghost predicate MakesCancelled(s: Sys, a: Action, k: nat)
  {
    a.CCommitCancel? && a.k == k && CEnabled(s, a) && Updates(s.db, CommitGuard(s.cans[k]))
  }

  /**
   `cancel_run` makes a run cancelled only on proof. For local runs every child, worker and launcher
   recorded on the row at that moment was reported terminated, and if none was recorded the run was
   not running when the cancellation began. For remote runs nothing was ever launched, or no worker
   was attached, the remote end was identified and terminated under an authoritative contract with its
   completion persisted, and a live local child was terminated too.
   */
  lemma CancelNeedsProof(states: seq<Sys>, actions: seq<Action>, i: nat, k: nat)
    requires IsRun(states, actions) && i < |actions| && MakesCancelled(states[i], actions[i], k)
    ensures states[i + 1].db.row.Some? && states[i + 1].db.row.value.status.Cancelled?
    ensures var r, snap := states[i + 1].db.row.value, states[i].cans[k].snap;
            !states[i].tool.Remote? && NothingRecorded(r) ==>
              snap.status.NotStarted? || snap.status.LaunchPending? || snap.status.Queued?
                || snap.status.RecoveryPending?
    ensures var r, ev := states[i + 1].db.row.value, states[i].cans[k].ev;
            !states[i].tool.Remote? ==>
              forall pid: Pid :: pid > 0 && (pid == r.child || pid == r.worker || pid == r.launcher) ==>
                ReportedDead(ev.reports, pid)
    ensures var r, ev := states[i + 1].db.row.value, states[i].cans[k].ev;
            states[i].tool.Remote? && !NothingRecorded(r) ==>
              && !(r.worker > 0 && ev.workerRunning)
              && ev.remoteKnown && states[i].tool.hasContract && ev.remoteTerminated && ev.completionPersisted
              && (r.child > 0 && ev.childRunning ==> ev.childTerminated)
  {
    assert StepAt(states, actions, i);
    RunKeepsInvariant(states, actions, i);
    var s := states[i];
    var c := s.cans[k];
    assert CanSound(s.tool, s.db, c);
    if !s.tool.Remote? && AllTerminated(c.ev.reports) {
      forall pid: Pid | pid > 0 && (pid == c.snap.child || pid == c.snap.worker || pid == c.snap.launcher)
        ensures ReportedDead(c.ev.reports, pid)
      {
        CoveredIsDead(c.snap, c.ev.reports, pid);
      }
    }
  }

  lemma OwnStepsStayDone(s: Sys, a: Action, k: nat)
    requires CEnabled(s, a) && k < |s.cans| && s.cans[k].CDone?
    ensures k < |CStep(s, a).cans| && CStep(s, a).cans[k].CDone?
  {
  }

  lemma WorkersLeaveCancellers(s: Sys, a: Action)
    requires WEnabled(s, a)
    ensures WStep(s, a).cans == s.cans
  {
  }

  lemma LauncherLeavesCancellers(s: Sys, a: Action)
    requires LEnabled(s, a)
    ensures LStep(s, a).cans == s.cans
  {
  }

  lemma CancellerStaysDone(s: Sys, a: Action, k: nat)
    requires Enabled(s, a) && k < |s.cans| && s.cans[k].CDone?
    ensures k < |Step(s, a).cans| && Step(s, a).cans[k].CDone?
  {
    if LEnabled(s, a) {
      LauncherLeavesCancellers(s, a);
    } else if REnabled(s, a) {
      ReconcileTouches(s, a);
    } else if CEnabled(s, a) {
      OwnStepsStayDone(s, a, k);
    } else if WEnabled(s, a) {
      WorkersLeaveCancellers(s, a);
    }
  }

  lemma RunStepStaysDone(states: seq<Sys>, actions: seq<Action>, i: nat, k: nat)
    requires IsRun(states, actions) && i < |actions| && k < |states[i].cans| && states[i].cans[k].CDone?
    ensures k < |states[i + 1].cans| && states[i + 1].cans[k].CDone?
  {
    assert StepAt(states, actions, i);
    CancellerStaysDone(states[i], actions[i], k);
  }

  lemma {:induction false} RunStaysDone(states: seq<Sys>, actions: seq<Action>, i: nat, j: nat, k: nat)
    requires IsRun(states, actions) && i <= j < |states| && k < |states[i].cans| && states[i].cans[k].CDone?
    ensures k < |states[j].cans| && states[j].cans[k].CDone?
  {
    if i < j {
      RunStaysDone(states, actions, i, j - 1, k);
      RunStepStaysDone(states, actions, j - 1, k);
    }
  }

  /** Canceller `k` decides without proof. */
  ghost predicate LacksProof(s: Sys, a: Action, k: nat)
  {
    a.CDecide? && a.k == k && CEnabled(s, a) && !Suffices(s.tool, s.cans[k].snap, a.ev)
  }

  /**
   A cancellation without proof ends there: for the rest of the run that canceller neither makes the run
   cancelled nor releases its lock, the run stays frozen, and no other process is recorded on it.
   */
  lemma UnprovenCancelEnds(states: seq<Sys>, actions: seq<Action>, i: nat, j: nat, k: nat)
    requires IsRun(states, actions) && i < j < |states| && LacksProof(states[i], actions[i], k)
    ensures states[i + 1].db.lock == states[i].db.lock
    ensures k < |states[j].cans| && states[j].cans[k].CDone?
    ensures states[i].db.row.Some? && states[j].db.row.Some? && Frozen(states[j].db.row.value.status)
    ensures var r, q := states[i].db.row.value, states[j].db.row.value;
      q.child == r.child && q.worker == r.worker && q.launcher == r.launcher && q.generation == r.generation
  {
    assert StepAt(states, actions, i);
    RunKeepsInvariant(states, actions, i);
    UnprovenCancelStaysPending(states[i], k, actions[i].ev, actions[i].phase);
    RunStaysDone(states, actions, i + 1, j, k);
    RunMovesForward(states, actions, i + 1, j);
  }

  /** Without proof the canceller leaves status, lease and lock exactly as they are. */
  lemma UnprovenCancelStaysPending(s: Sys, k: nat, ev: Evidence, phase: Token)
    requires Inv(s) && CEnabled(s, CDecide(k, ev, phase)) && !Suffices(s.tool, s.cans[k].snap, ev)
    ensures var t := CStep(s, CDecide(k, ev, phase));
            && t.db.lock == s.db.lock && t.cans[k].CDone?
            && s.db.row.Some? && t.db.row.Some?
            && ControlOf(t.db.row.value) == ControlOf(s.db.row.value)
              && t.db.row.value.version == s.db.row.value.version
            && Frozen(t.db.row.value.status)
  {
    ConfirmedIffSuffices(s.tool, s.cans[k].snap, ev);
    assert CanSound(s.tool, s.db, s.cans[k]);
  }
}
