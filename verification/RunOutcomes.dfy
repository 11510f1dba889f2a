/**
 What reconcilers, cancellers and workers do to a run, in terms of the fields they look at, and whole runs
 that reach the intended ends.
 */
module RunOutcomes {
  import opened Basics
  import opened Traces
  import opened RunStore
  import opened RunProtocol
  import opened RunSafety
  import opened RunTheorems
  import opened WorkerRelease

  // ------------------------------------------------------------ one decision of a reconciler

  /** The row is as it was read, lease and version included, and has not ended. */
  ghost predicate Still(db: Db, snap: Row)
  {
    && db.row.Some?
    && var r := db.row.value;
    && r.status == snap.status && r.version == snap.version && r.token == snap.token && r.generation == snap.generation
    && !(r.status.Completed? || r.status.Partial? || r.status.Failed? || r.status.Cancelled? || r.status.TimedOut?
         || r.status.NeedsInput?)
  }

  /** And nothing has beaten since. */
  ghost predicate StillSilent(db: Db, snap: Row)
  {
    Still(db, snap) && db.row.value.heartbeat == snap.heartbeat
  }

  ghost function Turned(db: Db, status: Status, phase: Token): Db
    requires db.row.Some?
  {
    db.(row := Some(db.row.value.(status := status, phase := phase, version := db.row.value.version + 1)))
  }

  ghost predicate Launching(snap: Row)
  {
    snap.status.LaunchPending? || snap.status.Queued?
  }

  /** Nobody is left to finish the run and it may not be launched again. */
  ghost predicate Hopeless(tool: Tool, snap: Row, p: Probes)
  {
    && !p.workerVerified && !tool.Remote? && !p.childRunning
    && (|| (Launching(snap) && !tool.Legacy? && !p.launcherRunning && snap.attempts >= 2)
        || (snap.status.Running? && snap.worker > 0 && snap.identity > 0))
  }

  /** What is left of the run cannot be told. */
  ghost predicate Uncertain(tool: Tool, snap: Row, p: Probes)
  {
    && !p.workerVerified
    && if tool.Remote? then !tool.hasContract || p.remote.RemoteUncertain?
       else
         || p.childRunning
         || (Launching(snap) && tool.Legacy?)
         || (snap.status.Running? && (snap.worker == 0 || snap.identity == 0))
  }

  ghost predicate RemotelyOver(tool: Tool, p: Probes)
  {
    !p.workerVerified && tool.Remote? && tool.hasContract && p.remote.RemoteEnded?
  }

  /** The launch got nowhere and may be tried again. */
  ghost predicate Stranded(tool: Tool, snap: Row, p: Probes)
  {
    && !p.workerVerified && !tool.Remote? && !tool.Legacy? && !p.childRunning && !p.launcherRunning
    && Launching(snap) && snap.attempts < 2
  }

  ghost predicate Acts(s: Sys, a: Action)
  {
    a.RAct? && REnabled(s, a)
  }

  /** A run whose worker is verified keeps its status, its lease, its processes and its lock. */
  lemma VerifiedIsAdopted(s: Sys, a: Action)
    requires Acts(s, a) && a.probes.workerVerified
    ensures Enabled(s, a)
    ensures var t, snap := Step(s, a), s.recs[a.k].snap;
      && t.db.lock == s.db.lock && t.workers == s.workers && t.cans == s.cans
      && (s.db.row.None? ==> t.db.row.None?)
      && (s.db.row.Some? ==> t.db.row.Some? && ControlOf(t.db.row.value) == ControlOf(s.db.row.value))
      && (StillSilent(s.db, snap) && snap.status.Running? ==>
            && t.db.row == Some(s.db.row.value.(phase := a.phase, heartbeat := a.now, version := snap.version + 1))
            && t.recs[a.k] == RClaim(snap, t.db.row.value))
  {
  }

  /** A run is failed exactly when it is hopeless and nothing has changed since it was read. */
  lemma HopelessIsFailed(s: Sys, a: Action)
    requires Acts(s, a) && Hopeless(s.tool, s.recs[a.k].snap, a.probes)
    ensures Enabled(s, a)
    ensures var t, snap := Step(s, a), s.recs[a.k].snap;
      if StillSilent(s.db, snap)
      then t.db == Turned(s.db, Failed, a.phase) && t.recs[a.k] == RRelease(snap.token, snap.generation)
      else t.db == s.db && t.recs[a.k].RDone?
  {
  }

  /** A reconciler that failed a run goes on to free its lock. */
  lemma HopelessRunEnds(s: Sys, a: Action) returns (t: Sys)
    requires Acts(s, a) && Hopeless(s.tool, s.recs[a.k].snap, a.probes) && StillSilent(s.db, s.recs[a.k].snap)
    requires Locks(s.db, s.recs[a.k].snap.token, s.recs[a.k].snap.generation)
    ensures Leads(Goes, s, [a] + [RReleaseLock(a.k)], t)
    ensures t.db.row.Some? && t.db.row.value.status.Failed? && t.db.lock.None?
  {
    HopelessIsFailed(s, a);
    var mid := Step(s, a);
    LeadsOne(Goes, s, a, mid);
    t := Step(mid, RReleaseLock(a.k));
    LeadsOne(Goes, mid, RReleaseLock(a.k), t);
    LeadsFurther(Goes, s, [a], mid, [RReleaseLock(a.k)], t);
  }

  /** An adopted worker becomes the owner of the run's lock; without the lock its run is to be contained. */
  lemma AdoptedOwnsLock(s: Sys, k: nat)
    requires REnabled(s, RClaimLock(k)) && s.lockRequired
    ensures Enabled(s, RClaimLock(k))
    ensures var t, r := Step(s, RClaimLock(k)), s.recs[k];
      if Locks(s.db, r.snap.token, r.snap.generation)
      then t.recs[k].RDone? && Locks(t.db, r.snap.token, r.snap.generation) && t.db.lock.value.owner == r.current.worker
      else t.db == s.db && t.recs[k] == RContain(r.snap, r.current)
  {
  }

  /** A run whose state is uncertain is contained, its lock kept. */
  lemma UncertainIsContained(s: Sys, a: Action)
    requires Acts(s, a) && Uncertain(s.tool, s.recs[a.k].snap, a.probes)
    ensures Enabled(s, a)
    ensures var t, snap := Step(s, a), s.recs[a.k].snap;
      t.db == (if StillSilent(s.db, snap) then Turned(s.db, RecoveryPending, a.phase) else s.db) && t.recs[a.k].RDone?
  {
  }

  /** A remote run that is over takes the status its controller reports, or fails if that is not an end. */
  lemma RemoteEndIsTaken(s: Sys, a: Action)
    requires Acts(s, a) && RemotelyOver(s.tool, a.probes)
    ensures Enabled(s, a)
    ensures var t, snap, status := Step(s, a), s.recs[a.k].snap, a.probes.remote.status;
      if Still(s.db, snap)
      then t.db == Turned(s.db, if Terminal(status) then status else Failed, a.phase)
           && t.recs[a.k] == RRelease(snap.token, snap.generation)
      else t.db == s.db && t.recs[a.k].RDone?
  {
  }

  /** A stranded launch is reserved anew under the next lease, exactly if row and lock still carry the old one. */
  lemma StrandedIsReserved(s: Sys, a: Action)
    requires Acts(s, a) && Stranded(s.tool, s.recs[a.k].snap, a.probes)
    ensures Enabled(s, a)
    ensures var t, snap := Step(s, a), s.recs[a.k].snap;
      if Still(s.db, snap) && s.db.lock.Some? && s.db.lock.value.run == s.db.run
         && s.db.lock.value.token == snap.token && s.db.lock.value.generation == snap.generation
      then
        && t.db.row == Some(Row(LaunchPending, snap.version + 1, a.newToken, snap.generation + 1,
                                s.db.row.value.attempts + 1, 0, 0, 0, 0, a.now, a.phase))
        && t.db.lock == Some(LockRow(s.db.run, a.newToken, snap.generation + 1, a.owner, true))
        && t.recs[a.k] == RSpawn(a.newToken, t.db.row.value)
      else t.db == s.db && t.recs[a.k].RDone?
  {
  }

  /** In every other case the reconciler leaves the run alone. */
  lemma RestIsLeftAlone(s: Sys, a: Action)
    requires Acts(s, a) && !a.probes.workerVerified && !Hopeless(s.tool, s.recs[a.k].snap, a.probes)
    requires !Uncertain(s.tool, s.recs[a.k].snap, a.probes) && !RemotelyOver(s.tool, a.probes)
    requires !Stranded(s.tool, s.recs[a.k].snap, a.probes)
    ensures Enabled(s, a) && Step(s, a).db == s.db && Step(s, a).recs[a.k].RDone?
  {
  }

  /** The five conditions exclude one another. */
  lemma DecisionsExclude(tool: Tool, snap: Row, p: Probes)
    ensures !(Hopeless(tool, snap, p) && Uncertain(tool, snap, p))
      && !(Hopeless(tool, snap, p) && Stranded(tool, snap, p))
    ensures !(Uncertain(tool, snap, p) && Stranded(tool, snap, p))
      && !(RemotelyOver(tool, p) && Uncertain(tool, snap, p))
    ensures RemotelyOver(tool, p) ==> !Hopeless(tool, snap, p) && !Stranded(tool, snap, p)
  {
  }

  /** A stranded launch, reserved anew, is spawned under the new lease and recorded. */
  lemma RelaunchIsRecorded(s: Sys, a: Action, pid: Pid) returns (t: Sys)
    requires Acts(s, a) && Stranded(s.tool, s.recs[a.k].snap, a.probes) && Still(s.db, s.recs[a.k].snap)
    requires Locks(s.db, s.recs[a.k].snap.token, s.recs[a.k].snap.generation)
    ensures Leads(Goes, s, [a] + ([RSpawnWorker(a.k, false)] + [RRecordLaunch(a.k, pid, 0, 0, false)]), t)
    ensures t.workers == s.workers + [WNew(a.newToken)]
    ensures t.db.row.Some? && t.db.row.value.status.Queued? && t.db.row.value.launcher == pid
    ensures t.db.row.value.token == a.newToken && t.db.row.value.generation == s.recs[a.k].snap.generation + 1
    ensures Locks(t.db, a.newToken, s.recs[a.k].snap.generation + 1)
  {
    StrandedIsReserved(s, a);
    var mid := Step(s, a);
    LeadsOne(Goes, s, a, mid);
    ReservationTouches(s, a);
    t := SpawnsAgain(mid, a.k, pid);
    LeadsFurther(Goes, s, [a], mid, [RSpawnWorker(a.k, false)] + [RRecordLaunch(a.k, pid, 0, 0, false)], t);
  }

  lemma ReservationTouches(s: Sys, a: Action)
    requires Acts(s, a) && Stranded(s.tool, s.recs[a.k].snap, a.probes)
    ensures Enabled(s, a) && Step(s, a).workers == s.workers && Step(s, a).db.run == s.db.run
  {
  }

  lemma SpawnsAgain(s: Sys, k: nat, pid: Pid) returns (t: Sys)
    requires k < |s.recs| && s.db.row.Some? && s.recs[k] == RSpawn(s.db.row.value.token, s.db.row.value)
    requires s.db.row.value.status.LaunchPending?
    ensures Leads(Goes, s, [RSpawnWorker(k, false)] + [RRecordLaunch(k, pid, 0, 0, false)], t)
    ensures t.workers == s.workers + [WNew(s.db.row.value.token)] && t.db.lock == s.db.lock && t.db.run == s.db.run
    ensures t.db.row.Some? && t.db.row.value.status.Queued? && t.db.row.value.launcher == pid
    ensures t.db.row.value.token == s.db.row.value.token && t.db.row.value.generation == s.db.row.value.generation
    ensures t.db.row.value.attempts == s.db.row.value.attempts
  {
    var mid := Step(s, RSpawnWorker(k, false));
    LeadsOne(Goes, s, RSpawnWorker(k, false), mid);
    t := Step(mid, RRecordLaunch(k, pid, 0, 0, false));
    LeadsOne(Goes, mid, RRecordLaunch(k, pid, 0, 0, false), t);
    LeadsFurther(Goes, s, [RSpawnWorker(k, false)], mid, [RRecordLaunch(k, pid, 0, 0, false)], t);
  }

  /** A relaunch that raises fails the run exactly if it is still the one reserved, and as it was just read. */
  lemma RelaunchFailureAnswer(s: Sys, k: nat, phase: Token)
    ensures REnabled(s, RRefail(k)) ==>
      && Enabled(s, RRefail(k))
      && var t, r, row := Step(s, RRefail(k)), s.recs[k], s.db.row.value;
      && t.db == s.db
      && t.recs[k] == if row.token == r.token && row.generation == r.reserved.generation then RFail(row) else RDone
    ensures REnabled(s, RFailNow(k, phase)) ==>
      && Enabled(s, RFailNow(k, phase))
      && var t, snap := Step(s, RFailNow(k, phase)), s.recs[k].snap;
      if StillSilent(s.db, snap)
      then t.db == Turned(s.db, Failed, phase) && t.recs[k] == RRelease(snap.token, snap.generation)
      else t.db == s.db && t.recs[k].RDone?
  {
  }

  // ------------------------------------------------------------ a cancellation

  /** A cancellation starts from the row unless the run has ended or is being cancelled already. */
  lemma CancellationBegins(s: Sys, published: bool)
    requires CEnabled(s, CBegin(published))
    ensures Enabled(s, CBegin(published))
    ensures var t, r := Step(s, CBegin(published)), s.db.row.value;
      && t.db == s.db && |t.cans| == |s.cans| + 1
      && t.cans[|s.cans|] ==
           if Terminal(r.status) then (if published then CRelease(r.token, r.generation) else CDone)
           else if r.status.CancellationPending? then CDone else CSnapshot(r)
  {
  }

  /** The run is marked exactly if it is still as it was read. */
  lemma CancellationMarks(s: Sys, k: nat, phase: Token)
    requires CEnabled(s, CMark(k, phase))
    ensures Enabled(s, CMark(k, phase))
    ensures var t, snap := Step(s, CMark(k, phase)), s.cans[k].snap;
      if Still(s.db, snap)
      then t.db == Turned(s.db, CancellationPending, phase) && t.cans[k] == CPending(snap)
      else t.db == s.db && t.cans[k] == CLost(snap.token, snap.generation)
  {
  }

  /** A canceller that lost its update frees the lock exactly if the run has ended and its result is published. */
  lemma LostCancellationLooks(s: Sys, k: nat, published: bool)
    requires CEnabled(s, CLook(k, published))
    ensures Enabled(s, CLook(k, published))
    ensures var t, c := Step(s, CLook(k, published)), s.cans[k];
      && t.db == s.db
      && t.cans[k] == if Terminal(s.db.row.value.status) && published then CRelease(c.token, c.generation) else CDone
  {
  }

  /** A canceller goes on to finish exactly when its evidence suffices, and is done otherwise. */
  lemma CancellerGoesOnIff(s: Sys, k: nat, ev: Evidence, phase: Token)
    requires CEnabled(s, CDecide(k, ev, phase))
    ensures Enabled(s, CDecide(k, ev, phase))
    ensures var t, snap := Step(s, CDecide(k, ev, phase)), s.cans[k].snap;
      && t.cans[k] == (if Suffices(s.tool, snap, ev) then CFinish(snap, ev) else CDone)
      && t.db.lock == s.db.lock && (Suffices(s.tool, snap, ev) ==> t.db == s.db)
  {
    ConfirmedIffSuffices(s.tool, s.cans[k].snap, ev);
  }

  /** The run is this canceller's to finish. */
  ghost predicate Cancelling(s: Sys, k: nat, snap: Row)
  {
    && k < |s.cans| && s.db.row.Some? && s.db.row.value.status.CancellationPending?
    && s.db.row.value.token == snap.token && s.db.row.value.generation == snap.generation
    && Locks(s.db, snap.token, snap.generation)
  }

  lemma MarksAndDecides(s: Sys, k: nat, ev: Evidence) returns (t: Sys)
    requires k < |s.cans| && s.cans[k].CSnapshot? && Still(s.db, s.cans[k].snap)
    requires Locks(s.db, s.cans[k].snap.token, s.cans[k].snap.generation)
    requires Suffices(s.tool, s.cans[k].snap, ev) && (!s.tool.Remote? ==> Covers(ev.reports, Targets(s.cans[k].snap)))
    ensures Leads(Goes, s, [CMark(k, 0)] + [CDecide(k, ev, 0)], t)
    ensures Cancelling(t, k, s.cans[k].snap) && t.cans[k] == CFinish(s.cans[k].snap, ev)
  {
    var mid := Step(s, CMark(k, 0));
    LeadsOne(Goes, s, CMark(k, 0), mid);
    CancellerGoesOnIff(mid, k, ev, 0);
    t := Step(mid, CDecide(k, ev, 0));
    LeadsOne(Goes, mid, CDecide(k, ev, 0), t);
    LeadsFurther(Goes, s, [CMark(k, 0)], mid, [CDecide(k, ev, 0)], t);
  }

  lemma ReadsAndCommits(s: Sys, k: nat, snap: Row, ev: Evidence) returns (t: Sys)
    requires Cancelling(s, k, snap) && s.cans[k] == CFinish(snap, ev)
    ensures Leads(Goes, s, [CRead(k)] + [CCommitCancel(k, 0)], t)
    ensures k < |t.cans| && t.cans[k] == CRelease(snap.token, snap.generation)
      && Locks(t.db, snap.token, snap.generation)
    ensures t.db.row.Some? && t.db.row.value.status.Cancelled?
  {
    var mid := Step(s, CRead(k));
    LeadsOne(Goes, s, CRead(k), mid);
    t := Step(mid, CCommitCancel(k, 0));
    LeadsOne(Goes, mid, CCommitCancel(k, 0), t);
    LeadsFurther(Goes, s, [CRead(k)], mid, [CCommitCancel(k, 0)], t);
  }

  /** With sufficient evidence and nothing in between, a cancellation ends the run and frees its lock. */
  lemma CancellationCompletes(s: Sys, k: nat, ev: Evidence) returns (actions: seq<Action>, t: Sys)
    requires k < |s.cans| && s.cans[k].CSnapshot? && Still(s.db, s.cans[k].snap)
    requires Locks(s.db, s.cans[k].snap.token, s.cans[k].snap.generation)
    requires Suffices(s.tool, s.cans[k].snap, ev) && (!s.tool.Remote? ==> Covers(ev.reports, Targets(s.cans[k].snap)))
    ensures Leads(Goes, s, actions, t) && t.db.row.Some? && t.db.row.value.status.Cancelled? && t.db.lock.None?
  {
    var snap := s.cans[k].snap;
    var s1 := MarksAndDecides(s, k, ev);
    var s2 := ReadsAndCommits(s1, k, snap, ev);
    t := Step(s2, CReleaseLock(k));
    LeadsOne(Goes, s2, CReleaseLock(k), t);
    var first, second := [CMark(k, 0)] + [CDecide(k, ev, 0)], [CRead(k)] + [CCommitCancel(k, 0)];
    LeadsFurther(Goes, s, first, s1, second, s2);
    LeadsFurther(Goes, s, first + second, s2, [CReleaseLock(k)], t);
    actions := first + second + [CReleaseLock(k)];
  }

  // ------------------------------------------------------------ the worker's result

  /** The worker's result is what the row gets, exactly if the row is as the worker last read it and still its own. */
  lemma ResultIsStored(s: Sys, k: nat, phase: Token, again: bool)
    requires WEnabled(s, WCommit(k, phase, again)) && WorkerSound(s.db, s.workers[k])
    ensures Enabled(s, WCommit(k, phase, again))
    ensures var t, w := Step(s, WCommit(k, phase, again)), s.workers[k];
      && t.db == (if && s.db.row.Some? && s.db.row.value.version == w.version
                     && s.db.row.value.token == w.token && s.db.row.value.generation == w.generation
                     && (|| s.db.row.value.status.Running?
                         || (s.tool.Remote? && (w.result.Cancelled? || w.result.TimedOut?)
                             && s.db.row.value.status.CancellationPending?))
                  then Turned(s.db, w.result, phase) else s.db)
      && t.workers == s.workers[k := if again then WRunning(w.token, w.generation) else WExit(w.token, w.generation)]
  {
  }

  /** The row is this worker's and running. */
  ghost predicate RunsUnder(db: Db, token: Token, generation: nat)
  {
    && db.row.Some? && db.row.value.status.Running?
    && db.row.value.token == token && db.row.value.generation == generation
  }

  /** A worker takes the run exactly if it is still to be started, under its lease and as just read. */
  lemma ClaimAnswer(s: Sys, k: nat, pid: Pid, identity: Token, now: Token, phase: Token)
    requires WEnabled(s, WClaim(k, pid, identity, now, phase))
    ensures Enabled(s, WClaim(k, pid, identity, now, phase))
    ensures var t, w := Step(s, WClaim(k, pid, identity, now, phase)), s.workers[k];
      if && s.db.row.Some? && (s.db.row.value.status.LaunchPending? || s.db.row.value.status.Queued?)
         && s.db.row.value.version == w.version
         && s.db.row.value.token == w.token && s.db.row.value.generation == w.generation
      then
        && t.db == Turned(s.db, Running, phase)
                   .(row := Some(Turned(s.db, Running, phase).row.value
                     .(worker := pid, identity := identity, heartbeat := now)))
        && t.workers[k] == WClaimed(w.token, w.generation)
      else t.db == s.db && t.workers[k].WDone?
  {
  }

  /** Heartbeats and the child's process reach the row exactly while it is this worker's and running. */
  lemma BeatAnswer(s: Sys, k: nat, pid: Pid, now: Token)
    requires k < |s.workers| && s.workers[k].WRunning?
    ensures Enabled(s, WBeat(k, now)) && Enabled(s, WChild(k, pid, now))
    ensures !RunsUnder(s.db, s.workers[k].token, s.workers[k].generation) ==>
      Step(s, WBeat(k, now)) == s && Step(s, WChild(k, pid, now)) == s
    ensures RunsUnder(s.db, s.workers[k].token, s.workers[k].generation) ==>
      && var r := s.db.row.value;
      && Step(s, WBeat(k, now)).db.row == Some(r.(heartbeat := now))
      && Step(s, WChild(k, pid, now)).db.row == Some(r.(child := pid, heartbeat := now, version := r.version + 1))
  {
  }

  /** So does progress; the version moves exactly when the phase changes. */
  lemma ProgressAnswer(s: Sys, k: nat, phase: Token, now: Token)
    requires k < |s.workers| && s.workers[k].WRunning?
    ensures Enabled(s, WProgress(k, phase, now))
    ensures !RunsUnder(s.db, s.workers[k].token, s.workers[k].generation) ==> Step(s, WProgress(k, phase, now)) == s
    ensures RunsUnder(s.db, s.workers[k].token, s.workers[k].generation) ==>
      && var r := s.db.row.value;
      Step(s, WProgress(k, phase, now)).db.row ==
        Some(r.(phase := phase, heartbeat := now, version := if phase == r.phase then r.version else r.version + 1))
  {
  }

  /** A worker that has claimed the run but finds its lock gone contains it. */
  lemma UnlockedWorkerAnswer(s: Sys, k: nat, pid: Pid, phase: Token)
    requires s.lockRequired && k < |s.workers|
    ensures s.workers[k].WClaimed? ==>
      && Enabled(s, WLock(k, pid))
      && var t, w := Step(s, WLock(k, pid)), s.workers[k];
      if Locks(s.db, w.token, w.generation)
      then t.workers[k] == WRunning(w.token, w.generation) && t.db.lock.Some? && t.db.lock.value.owner == pid
      else t.workers[k] == WUnlocked(w.token, w.generation) && t.db == s.db
    ensures s.workers[k].WContain? ==>
      && Enabled(s, WMark(k, phase))
      && var t, w := Step(s, WMark(k, phase)), s.workers[k];
      && t.workers[k].WDone?
      && t.db == if RunsUnder(s.db, w.token, w.generation) && s.db.row.value.version == w.snap.version
                    && s.db.row.value.heartbeat == w.snap.heartbeat
                 then Turned(s.db, RecoveryPending, phase) else s.db
  {
  }

  lemma Reports(s: Sys, result: Status) returns (t: Sys)
    requires Working(s) && Terminal(result)
    ensures Leads(Goes, s, [WReadFinal(0, result)] + [WCommit(0, 0, false)], t)
    ensures t.lockRequired && t.workers == [WExit(t.token0, 1)] && Locks(t.db, t.token0, 1)
    ensures t.db.row.Some? && t.db.row.value.status == result
  {
    var mid := Step(s, WReadFinal(0, result));
    LeadsOne(Goes, s, WReadFinal(0, result), mid);
    ResultIsStored(mid, 0, 0, false);
    t := Step(mid, WCommit(0, 0, false));
    LeadsOne(Goes, mid, WCommit(0, 0, false), t);
    LeadsFurther(Goes, s, [WReadFinal(0, result)], mid, [WCommit(0, 0, false)], t);
  }

  lemma LeavesLock(s: Sys) returns (t: Sys)
    requires s.lockRequired && s.workers == [WExit(s.token0, 1)] && Locks(s.db, s.token0, 1)
    requires s.db.row.Some? && Terminal(s.db.row.value.status)
    ensures Leads(Goes, s, [WLookFinal(0)] + [WReleaseLock(0)], t)
    ensures t.db.row.Some? && t.db.row.value.status == s.db.row.value.status && t.db.lock.None?
  {
    var mid := Step(s, WLookFinal(0));
    LeadsOne(Goes, s, WLookFinal(0), mid);
    t := Step(mid, WReleaseLock(0));
    LeadsOne(Goes, mid, WReleaseLock(0), t);
    LeadsFurther(Goes, s, [WLookFinal(0)], mid, [WReleaseLock(0)], t);
  }

  /** From the start a run can reach every end its worker may report, with the lock free afterwards. */
  lemma RunCompletes(s: Sys, result: Status) returns (states: seq<Sys>, actions: seq<Action>)
    requires Initial(s) && s.lockRequired && s.db.lock.None? && Terminal(result)
    ensures IsRun(states, actions) && states[0] == s
    ensures var t := states[|actions|]; t.db.lock.None? && t.db.row.Some? && t.db.row.value.status == result
  {
    var first, s1 := Starts(s);
    var s2 := Reports(s1, result);
    var t := LeavesLock(s2);
    var second, third := [WReadFinal(0, result)] + [WCommit(0, 0, false)], [WLookFinal(0)] + [WReleaseLock(0)];
    LeadsFurther(Goes, s, first, s1, second, s2);
    LeadsFurther(Goes, s, first + second, s2, third, t);
    actions := first + second + third;
    states := LeadsIsRun(s, actions, t);
  }

  /** From the start a local run at work can be cancelled: its worker is reported terminated and the lock is freed. */
  lemma RunningRunIsCancelled(s: Sys) returns (states: seq<Sys>, actions: seq<Action>)
    requires Initial(s) && s.lockRequired && s.db.lock.None? && !s.tool.Remote?
    ensures IsRun(states, actions) && states[0] == s
    ensures var t := states[|actions|]; t.db.lock.None? && t.db.row.Some? && t.db.row.value.status.Cancelled?
  {
    var first, s1 := Starts(s);
    var s2 := Step(s1, CBegin(true));
    LeadsOne(Goes, s1, CBegin(true), s2);
    var report := Report(WorkerRole, 1, true);
    var ev := Evidence([report], false, false, false, false, false, false);
    assert Targets(s2.cans[0].snap) == [(WorkerRole, 1)];
    assert ReportedDead(ev.reports, 1) by { assert ev.reports[0] == report; }
    var second, t := CancellationCompletes(s2, 0, ev);
    LeadsFurther(Goes, s, first, s1, [CBegin(true)], s2);
    LeadsFurther(Goes, s, first + [CBegin(true)], s2, second, t);
    actions := first + [CBegin(true)] + second;
    states := LeadsIsRun(s, actions, t);
  }

  // ------------------------------------------------------------ launching

  /** A launch is refused exactly when a lock is required and taken, and then touches nothing. */
  lemma LaunchIsRefusedIff(s: Sys, owner: Pid)
    requires LEnabled(s, LAcquire(owner))
    ensures Enabled(s, LAcquire(owner))
    ensures var t := Step(s, LAcquire(owner));
      && (t.launcher.LDone? <==> s.lockRequired && s.db.lock.Some?)
      && (t.launcher.LDone? ==> t.db == s.db)
      && (t.launcher.LAcquired? <==> !(s.lockRequired && s.db.lock.Some?))
      && (t.launcher.LAcquired? && s.lockRequired ==> Locks(t.db, s.token0, 1) && t.db.lock.value.owner == owner)
  {
  }

  /** From the start a launch is recorded: queued, one attempt, the launcher's process on the row. */
  lemma LaunchIsRecorded(s: Sys, pid: Pid) returns (states: seq<Sys>, actions: seq<Action>)
    requires Initial(s) && s.lockRequired && s.db.lock.None?
    ensures IsRun(states, actions) && states[0] == s
    ensures var t := states[|actions|];
      && t.db.row.Some? && t.db.row.value.status.Queued? && t.db.row.value.attempts == 1
      && t.db.row.value.launcher == pid && Locks(t.db, t.db.row.value.token, t.db.row.value.generation)
      && t.launcher.LRecorded?
  {
    var first, s1 := Accepts(s);
    var record := LRecord(pid, 0, 0, false);
    var s2 := Step(s1, LReread);
    LeadsOne(Goes, s1, LReread, s2);
    var t := Step(s2, record);
    LeadsOne(Goes, s2, record, t);
    LeadsFurther(Goes, s, first, s1, [LReread], s2);
    LeadsFurther(Goes, s, first + [LReread], s2, [record], t);
    actions := first + [LReread] + [record];
    states := LeadsIsRun(s, actions, t);
  }

  /** A launch that fails after the run was created, with nothing in between, ends failed with the lock free. */
  lemma FailedLaunchEnds(s: Sys) returns (t: Sys)
    requires s.launcher.LFailing? && s.lockRequired && Live(s.db)
    requires Locks(s.db, s.db.row.value.token, s.db.row.value.generation)
    ensures Leads(Goes, s, [LFailRead] + [LFail(0)] + [LRelease], t)
    ensures t.db.row.Some? && t.db.row.value.status.Failed? && t.db.lock.None?
  {
    var s1 := Step(s, LFailRead);
    LeadsOne(Goes, s, LFailRead, s1);
    var s2 := Step(s1, LFail(0));
    LeadsOne(Goes, s1, LFail(0), s2);
    t := Step(s2, LRelease);
    LeadsOne(Goes, s2, LRelease, t);
    LeadsFurther(Goes, s, [LFailRead], s1, [LFail(0)], s2);
    LeadsFurther(Goes, s, [LFailRead] + [LFail(0)], s2, [LRelease], t);
  }
}
