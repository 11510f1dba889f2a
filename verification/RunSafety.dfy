/** What every interleaving of launcher, workers, cancellers and reconcilers guarantees about a run. */
module RunSafety {
  import opened Basics
  import opened RunStore
  import opened RunProtocol

  /** `snap` is the row as it once was. */
  ghost predicate Seen(db: Db, snap: Row)
  {
    db.row.Some? && LaterRow(snap, db.row.value)
  }

  ghost predicate Finished(db: Db)
  {
    db.row.Some? && Terminal(db.row.value.status)
  }

  ghost predicate LauncherSound(s: Sys)
  {
    match s.launcher
    case LStart => s.db.row.None? && !Mine(s.db, s.db.lock) && !s.readBackFailed
    case LAcquired => s.db.row.None? && !s.readBackFailed
    case LIntent(intent) => Seen(s.db, intent)
    case LSpawned(intent) => Seen(s.db, intent)
    case LRead(intent, current) => Seen(s.db, intent) && Seen(s.db, current) && LaterRow(intent, current)
    case LFailSnapshot(snap) => Seen(s.db, snap)
    case LReleasing(_, _, created) => if created then Finished(s.db) else s.db.row.None? || s.readBackFailed
    case LDone => true
    case _ => s.db.row.Some?
  }

  ghost predicate RecSound(db: Db, r: Reconciler)
  {
    match r
    case RSnapshot(snap) => Seen(db, snap)
    case RAdoptLost(snap) => Seen(db, snap)
    case RClaim(snap, current) => Seen(db, snap) && Seen(db, current)
    case RContain(snap, current) => Seen(db, snap) && Seen(db, current)
    case RSpawn(_, reserved) => Seen(db, reserved)
    case RRecord(_, reserved) => Seen(db, reserved)
    case RRaised(_, reserved) => Seen(db, reserved)
    case RFail(snap) => Seen(db, snap)
    case RRelease(_, _) => Finished(db)
    case RDone => true
  }

  /** The run is frozen with the processes the canceller took stock of. */
  ghost predicate Marked(db: Db, snap: Row)
  {
    && Seen(db, snap)
    && Frozen(db.row.value.status)
    && db.row.value.child == snap.child && db.row.value.worker == snap.worker && db.row.value.launcher == snap.launcher
  }

  ghost predicate Proven(tool: Tool, snap: Row, ev: Evidence)
  {
    Confirmed(tool, snap, ev) && (!tool.Remote? ==> Covers(ev.reports, Targets(snap)))
  }

  ghost predicate CanSound(tool: Tool, db: Db, c: Canceller)
  {
    match c
    case CSnapshot(snap) => Seen(db, snap)
    case CPending(snap) => Marked(db, snap)
    case CFinish(snap, ev) => Marked(db, snap) && Proven(tool, snap, ev)
    case CCommit(snap, ev, _) => Marked(db, snap) && Proven(tool, snap, ev)
    case CRelease(_, _) => Finished(db)
    case _ => true
  }

  ghost predicate WorkerSound(db: Db, w: Worker)
  {
    && (w.WContain? ==> Seen(db, w.snap))
    && (w.WFinal? ==> Terminal(w.result) || w.result.CancellationPending?)
  }

  /** The original lease is the first generation, and only that. */
  ghost predicate LeaseSound(s: Sys)
  {
    && s.token0 in s.issued
    && (s.db.row.None? && Mine(s.db, s.db.lock) ==>
      s.db.lock.value.token == s.token0 && s.db.lock.value.generation == 1)
    && (s.db.row.Some? && s.db.row.value.generation > 1 ==> s.db.row.value.token != s.token0)
  }

  ghost predicate Inv(s: Sys)
  {
    && DbSound(s.db)
    && LeaseSound(s)
    && LauncherSound(s)
    && (forall k :: 0 <= k < |s.recs| ==> RecSound(s.db, s.recs[k]))
    && (forall k :: 0 <= k < |s.cans| ==> CanSound(s.tool, s.db, s.cans[k]))
    && (forall k :: 0 <= k < |s.workers| ==> WorkerSound(s.db, s.workers[k]))
  }

  // ------------------------------------------------------------ what others keep

  lemma SeenStays(a: Db, b: Db, snap: Row)
    requires LaterDb(a, b) && Seen(a, snap)
    ensures Seen(b, snap)
  {
  }

  lemma RecStays(a: Db, b: Db, r: Reconciler)
    requires LaterDb(a, b) && RecSound(a, r)
    ensures RecSound(b, r)
  {
  }

  lemma CanStays(tool: Tool, a: Db, b: Db, c: Canceller)
    requires LaterDb(a, b) && CanSound(tool, a, c)
    ensures CanSound(tool, b, c)
  {
  }

  /** The launcher keeps its footing whatever another actor's transaction does. */
  lemma LauncherStays(s: Sys, t: Sys)
    requires LauncherSound(s) && LaterDb(s.db, t.db) && t.launcher == s.launcher && t.readBackFailed == s.readBackFailed
    requires s.db.row.None? ==> t.db.row.None?
    requires !Mine(s.db, s.db.lock) ==> s.launcher.LAcquired? || !Mine(t.db, t.db.lock)
    ensures LauncherSound(t)
  {
  }

  /** A transaction that only moves forward, with one actor's list replaced. */
  lemma Frame(s: Sys, t: Sys)
    requires Inv(s) && LaterDb(s.db, t.db) && t.tool == s.tool
    ensures forall k :: 0 <= k < |s.recs| ==> RecSound(t.db, s.recs[k])
    ensures forall k :: 0 <= k < |s.cans| ==> CanSound(t.tool, t.db, s.cans[k])
    ensures forall k :: 0 <= k < |s.workers| ==> WorkerSound(t.db, s.workers[k])
  {
    forall k | 0 <= k < |s.recs| ensures RecSound(t.db, s.recs[k]) { RecStays(s.db, t.db, s.recs[k]); }
    forall k | 0 <= k < |s.cans| ensures CanSound(t.tool, t.db, s.cans[k]) { CanStays(s.tool, s.db, t.db, s.cans[k]); }
    forall k | 0 <= k < |s.workers| ensures WorkerSound(t.db, s.workers[k]) { }
  }

  // ------------------------------------------------------------ the launcher's transactions

  /** The attempt the launcher read is the one on the row, if its update goes through at all. */
  lemma RecordIsSound(s: Sys, pid: Pid, now: Token, phase: Token)
    requires DbSound(s.db) && LeaseSound(s) && LauncherSound(s) && s.launcher.LRead?
    ensures var g := LaunchGuard(s.launcher.intent, s.token0);
            var c := RecordChange(s.launcher.current, pid, now, phase);
            Updates(s.db, g) ==>
              Admissible(s.db.row.value, c, Always) && s.db.row.value.attempts == s.launcher.current.attempts == 0
  {
  }

  ghost predicate LaunchSound(s: Sys, t: Sys)
  {
    DbSound(t.db) && LaterDb(s.db, t.db) && LeaseSound(t) && LauncherSound(t)
  }

  /** Taking the lock, creating the row, binding. */
  lemma AcceptanceKeepsDb(s: Sys, a: Action)
    requires DbSound(s.db) && LeaseSound(s) && LauncherSound(s) && LEnabled(s, a)
    requires a.LAcquire? || a.LCreate? || a.LBind?
    ensures LaunchSound(s, LStep(s, a))
  {
    if a.LBind? { BindIsLater(s.db, s.token0, 1); }
  }

  /** Reading the intent, spawning, and the end of the call. */
  lemma SpawningKeepsDb(s: Sys, a: Action)
    requires DbSound(s.db) && LeaseSound(s) && LauncherSound(s) && LEnabled(s, a)
    requires a.LReadIntent? || a.LSpawn? || a.LReread? || a.LFinish?
    ensures LaunchSound(s, LStep(s, a))
  {
  }

  lemma RecordingKeepsDb(s: Sys, a: Action)
    requires DbSound(s.db) && LeaseSound(s) && LauncherSound(s) && LEnabled(s, a) && a.LRecord?
    ensures LaunchSound(s, LStep(s, a))
  {
    RecordIsSound(s, a.pid, a.now, a.phase);
    UpdateIsLater(s.db, LaunchGuard(s.launcher.intent, s.token0),
      RecordChange(s.launcher.current, a.pid, a.now, a.phase), Always);
  }

  /** Failing the run and releasing its lock. */
  lemma FailingKeepsDb(s: Sys, a: Action)
    requires DbSound(s.db) && LeaseSound(s) && LauncherSound(s) && LEnabled(s, a)
    requires a.LFailRead? || a.LFail? || a.LRelease?
    ensures LaunchSound(s, LStep(s, a))
  {
    if a.LFail? { UpdateIsLater(s.db, ExactlyWithBeat(s.launcher.snap), To(Failed, a.phase), Always); }
    if a.LRelease? { ReleaseIsLater(s.db, s.launcher.token, s.launcher.generation); }
  }

  lemma LaunchKeepsDb(s: Sys, a: Action)
    requires DbSound(s.db) && LeaseSound(s) && LauncherSound(s) && LEnabled(s, a)
    ensures LaunchSound(s, LStep(s, a))
  {
    if a.LAcquire? || a.LCreate? || a.LBind? {
      AcceptanceKeepsDb(s, a);
    } else if a.LReadIntent? || a.LSpawn? || a.LReread? || a.LFinish? {
      SpawningKeepsDb(s, a);
    } else if a.LRecord? {
      RecordingKeepsDb(s, a);
    } else {
      FailingKeepsDb(s, a);
    }
  }

  lemma LaunchKeeps(s: Sys, a: Action)
    requires Inv(s) && LEnabled(s, a)
    ensures Inv(LStep(s, a))
  {
    LaunchKeepsDb(s, a);
    Frame(s, LStep(s, a));
  }

  // ------------------------------------------------------------ the others' transactions

  /** What a transaction of anybody but the launcher owes the rest of the system. */
  ghost predicate Forward(s: Sys, t: Sys)
  {
    && DbSound(t.db) && LaterDb(s.db, t.db) && LeaseSound(t)
    && t.tool == s.tool && t.launcher == s.launcher && t.readBackFailed == s.readBackFailed
    && (s.db.row.None? ==> t.db.row.None?)
    && (!Mine(s.db, s.db.lock) ==> !Mine(t.db, t.db.lock))
  }

  /** An update of the row alone is a forward step whenever it is admissible. */
  lemma UpdateIsForward(s: Sys, t: Sys, g: Guard, c: Change, b: Bump)
    requires DbSound(s.db) && LeaseSound(s) && t.db == Update(s.db, g, c, b)
    requires Updates(s.db, g) ==> Admissible(s.db.row.value, c, b)
    requires t.tool == s.tool && t.launcher == s.launcher && t.readBackFailed == s.readBackFailed
    requires t.token0 == s.token0 && t.issued == s.issued
    ensures Forward(s, t)
  {
    UpdateIsLater(s.db, g, c, b);
  }

  lemma AdoptForward(s: Sys, k: nat, snap: Row, now: Token, phase: Token)
    requires DbSound(s.db) && LeaseSound(s) && k < |s.recs| && Seen(s.db, snap)
    ensures var t := AdoptStep(s, k, snap, now, phase); Forward(s, t) && RecSound(t.db, t.recs[k])
  {
    var t := AdoptStep(s, k, snap, now, phase);
    var g := ExactlyWithBeat(snap).(statuses := Some({Running}));
    if Updates(s.db, g) {
      UpdateIsForward(s, t, g, NOTHING.(phase := Some(phase), heartbeat := Some(now)), Always);
    }
  }

  lemma EndForward(s: Sys, k: nat, snap: Row, g: Guard, status: Status, phase: Token)
    requires DbSound(s.db) && LeaseSound(s) && k < |s.recs| && Terminal(status) && g.rejectTerminal
    ensures var t := EndStep(s, k, snap, g, status, phase); Forward(s, t) && RecSound(t.db, t.recs[k])
  {
    UpdateIsForward(s, EndStep(s, k, snap, g, status, phase), g, To(status, phase), Always);
  }

  lemma RelaunchForward(s: Sys, k: nat, snap: Row, newToken: Token, owner: Pid, now: Token, phase: Token)
    requires DbSound(s.db) && LeaseSound(s) && k < |s.recs| && Seen(s.db, snap) && newToken !in s.issued
    requires !Frozen(snap.status) && snap.attempts < 2
    ensures var t := RelaunchStep(s, k, snap, newToken, owner, now, phase); Forward(s, t) && RecSound(t.db, t.recs[k])
  {
    ReserveIsLater(s.db, {snap.status}, snap.version, snap.token, snap.generation, newToken, owner, now, phase);
  }

  lemma ReconcileForward(s: Sys, k: nat, probes: Probes, newToken: Token, owner: Pid, now: Token, phase: Token)
    requires DbSound(s.db) && LeaseSound(s)
    requires k < |s.recs| && s.recs[k].RSnapshot? && RecSound(s.db, s.recs[k]) && newToken !in s.issued
    ensures var t := RActStep(s, k, probes, newToken, owner, now, phase); Forward(s, t) && RecSound(t.db, t.recs[k])
  {
    var snap := s.recs[k].snap;
    match Decide(s.tool, snap, probes)
    case Adopt => AdoptForward(s, k, snap, now, phase);
    case RemoteFinish(status) => EndForward(s, k, snap, Exactly(snap), status, phase);
    case MarkRecovery =>
      UpdateIsForward(s, RActStep(s, k, probes, newToken, owner, now, phase), ExactlyWithBeat(snap),
        To(RecoveryPending, phase), Always);
    case Await =>
    case Relaunch => RelaunchForward(s, k, snap, newToken, owner, now, phase);
    case FailNow => EndForward(s, k, snap, ExactlyWithBeat(snap), Failed, phase);
  }

  ghost predicate RecsSound(db: Db, recs: seq<Reconciler>)
  {
    forall k :: 0 <= k < |recs| ==> RecSound(db, recs[k])
  }

  /** One reconciler moved on, the others saw the same database move forward. */
  lemma RecsMove(a: Db, b: Db, recs: seq<Reconciler>, k: nat, r: Reconciler)
    requires RecsSound(a, recs) && LaterDb(a, b) && k < |recs| && RecSound(b, r)
    ensures RecsSound(b, recs[k := r])
  {
    forall i | 0 <= i < |recs| && i != k ensures RecSound(b, recs[i]) { RecStays(a, b, recs[i]); }
  }

  lemma ClaimLockKeeps(s: Sys, k: nat)
    requires DbSound(s.db) && LeaseSound(s) && RecsSound(s.db, s.recs) && REnabled(s, RClaimLock(k))
    ensures var t := RStep(s, RClaimLock(k)); Forward(s, t) && RecsSound(t.db, t.recs)
  {
    var t := RStep(s, RClaimLock(k));
    var r := s.recs[k];
    ClaimIsLater(s.db, r.current.worker, r.snap.token, r.snap.generation);
    assert RecSound(s.db, r);
    RecStays(s.db, t.db, r);
    RecsMove(s.db, t.db, s.recs, k, t.recs[k]);
  }

  lemma RecordLaunchKeeps(s: Sys, k: nat, pid: Pid, now: Token, phase: Token, raised: bool)
    requires DbSound(s.db) && LeaseSound(s) && RecsSound(s.db, s.recs)
      && REnabled(s, RRecordLaunch(k, pid, now, phase, raised))
    ensures var t := RStep(s, RRecordLaunch(k, pid, now, phase, raised)); Forward(s, t) && RecsSound(t.db, t.recs)
  {
    var t := RStep(s, RRecordLaunch(k, pid, now, phase, raised));
    var r := s.recs[k];
    UpdateIsForward(s, t, LaunchGuard(r.reserved, r.token), To(Queued, phase)
      .(launcher := Some(pid), heartbeat := Some(now)), Always);
    assert RecSound(s.db, r);
    SeenStays(s.db, t.db, r.reserved);
    RecsMove(s.db, t.db, s.recs, k, t.recs[k]);
  }

  /** The remaining reconciler steps: reads, spawns, containment and the release. */
  lemma ReconcileRestKeeps(s: Sys, a: Action, k: nat)
    requires DbSound(s.db) && LeaseSound(s) && RecsSound(s.db, s.recs) && REnabled(s, a)
    requires (a.RReread? || a.RMark? || a.RSpawnWorker? || a.RRefail? || a.RReleaseLock?) && a.k == k
    ensures var t := RStep(s, a); Forward(s, t) && RecsSound(t.db, t.recs)
  {
    var t := RStep(s, a);
    var r := s.recs[k];
    assert RecSound(s.db, r);
    if a.RMark? {
      UpdateIsForward(s, t, ContainGuard(r.snap, r.current), To(RecoveryPending, a.phase), Always);
    } else if a.RReleaseLock? {
      ReleaseIsLater(s.db, r.token, r.generation);
    }
    RecsMove(s.db, t.db, s.recs, k, t.recs[k]);
  }

  lemma ReconcileStepForward(s: Sys, a: Action)
    requires DbSound(s.db) && LeaseSound(s) && RecsSound(s.db, s.recs) && REnabled(s, a)
    ensures var t := RStep(s, a); Forward(s, t) && RecsSound(t.db, t.recs)
  {
    var t := RStep(s, a);
    match a
    case RBegin =>
    case RAct(k, probes, newToken, owner, now, phase) =>
      assert RecSound(s.db, s.recs[k]);
      ReconcileForward(s, k, probes, newToken, owner, now, phase);
      ActTouches(s, k, probes, newToken, owner, now, phase);
      RecsMove(s.db, t.db, s.recs, k, t.recs[k]);
    case RFailNow(k, phase) =>
      EndForward(s, k, s.recs[k].snap, ExactlyWithBeat(s.recs[k].snap), Failed, phase);
      RecsMove(s.db, t.db, s.recs, k, t.recs[k]);
    case RClaimLock(k) => ClaimLockKeeps(s, k);
    case RRecordLaunch(k, pid, now, phase, raised) => RecordLaunchKeeps(s, k, pid, now, phase, raised);
    case RReread(k, _) => ReconcileRestKeeps(s, a, k);
    case RMark(k, _) => ReconcileRestKeeps(s, a, k);
    case RSpawnWorker(k, _) => ReconcileRestKeeps(s, a, k);
    case RRefail(k) => ReconcileRestKeeps(s, a, k);
    case RReleaseLock(k) => ReconcileRestKeeps(s, a, k);
  }

  lemma ActTouches(s: Sys, k: nat, probes: Probes, newToken: Token, owner: Pid, now: Token, phase: Token)
    requires k < |s.recs| && s.recs[k].RSnapshot?
    ensures var t := RActStep(s, k, probes, newToken, owner, now, phase);
            |t.recs| == |s.recs| && t.recs == s.recs[k := t.recs[k]]
  {
  }

  /** A reconciler leaves cancellers alone and may add a freshly spawned worker. */
  lemma ReconcileTouches(s: Sys, a: Action)
    requires REnabled(s, a)
    ensures var t := RStep(s, a);
            t.cans == s.cans && (t.workers == s.workers || exists token :: t.workers == s.workers + [WNew(token)])
  {
  }

  lemma ReconcileKeeps(s: Sys, a: Action)
    requires Inv(s) && REnabled(s, a)
    ensures Inv(RStep(s, a))
  {
    var t := RStep(s, a);
    ReconcileStepForward(s, a);
    ReconcileTouches(s, a);
    LauncherStays(s, t);
    Frame(s, t);
  }

  lemma CancelStepForward(s: Sys, a: Action)
    requires DbSound(s.db) && LeaseSound(s) && CEnabled(s, a)
    requires forall k :: 0 <= k < |s.cans| ==> CanSound(s.tool, s.db, s.cans[k])
    ensures Forward(s, CStep(s, a))
  {
    var t := CStep(s, a);
    match a
    case CMark(k, phase) => UpdateIsForward(s, t, Exactly(s.cans[k].snap), To(CancellationPending, phase), Always);
    case CDecide(k, ev, phase) =>
      UpdateIsLater(s.db, LeaseGuard({CancellationPending}, s.cans[k].snap.token, s.cans[k].snap.generation),
        NOTHING.(phase := Some(phase)), Never);
    case CCommitCancel(k, phase) => UpdateIsForward(s, t, CommitGuard(s.cans[k]), To(Cancelled, phase), Always);
    case CReleaseLock(k) => ReleaseIsLater(s.db, s.cans[k].token, s.cans[k].generation);
    case _ =>
  }

  lemma CancelStepSound(s: Sys, a: Action)
    requires DbSound(s.db) && LeaseSound(s) && CEnabled(s, a)
    requires forall k :: 0 <= k < |s.cans| ==> CanSound(s.tool, s.db, s.cans[k])
    ensures var t := CStep(s, a);
            && t.recs == s.recs && t.workers == s.workers
            && (forall k :: 0 <= k < |t.cans| ==> CanSound(t.tool, t.db, t.cans[k]))
  {
    var t := CStep(s, a);
    CancelStepForward(s, a);
    forall k | 0 <= k < |t.cans| ensures CanSound(t.tool, t.db, t.cans[k]) {
      if k < |s.cans| && t.cans[k] == s.cans[k] { CanStays(s.tool, s.db, t.db, s.cans[k]); }
    }
  }

  lemma CancelKeeps(s: Sys, a: Action)
    requires Inv(s) && CEnabled(s, a)
    ensures Inv(CStep(s, a))
  {
    var t := CStep(s, a);
    CancelStepForward(s, a);
    CancelStepSound(s, a);
    LauncherStays(s, t);
    Frame(s, t);
  }

  /** Claiming, containing, and releasing. */
  lemma WorkerLeaseForward(s: Sys, a: Action)
    requires DbSound(s.db) && LeaseSound(s) && WEnabled(s, a)
    requires a.WClaim? || a.WLock? || a.WMark? || a.WReleaseLock?
    ensures Forward(s, WStep(s, a))
  {
    var t := WStep(s, a);
    match a
    case WClaim(k, pid, identity, now, phase) =>
      UpdateIsForward(s, t, ClaimGuard(s.workers[k]), To(Running, phase)
        .(worker := Some((pid, identity)), heartbeat := Some(now)), Always);
    case WLock(k, pid) => ClaimIsLater(s.db, pid, s.workers[k].token, s.workers[k].generation);
    case WMark(k, phase) =>
      var w := s.workers[k];
      UpdateIsForward(s, t, ContainGuard(w.snap.(token := w.token, generation := w.generation), w.snap),
        To(RecoveryPending, phase), Always);
    case WReleaseLock(k) => ReleaseIsLater(s.db, s.workers[k].token, s.workers[k].generation);
  }

  /** Progress, heartbeats and the child's process. */
  lemma WorkerProgressForward(s: Sys, a: Action)
    requires DbSound(s.db) && LeaseSound(s) && WEnabled(s, a) && (a.WProgress? || a.WBeat? || a.WChild?)
    ensures Forward(s, WStep(s, a))
  {
    var t := WStep(s, a);
    match a
    case WProgress(k, phase, now) =>
      UpdateIsForward(s, t, LeaseGuard({Running}, s.workers[k].token, s.workers[k].generation),
                      NOTHING.(phase := Some(phase), heartbeat := Some(now)), OnPhaseChange);
    case WBeat(k, now) =>
      UpdateIsForward(s, t, LeaseGuard({Running}, s.workers[k].token, s.workers[k].generation),
        NOTHING.(heartbeat := Some(now)), Never);
    case WChild(k, pid, now) =>
      UpdateIsForward(s, t, LeaseGuard({Running}, s.workers[k].token, s.workers[k].generation),
                      NOTHING.(child := Some(pid), heartbeat := Some(now)), Always);
  }

  lemma WorkerStepForward(s: Sys, a: Action)
    requires DbSound(s.db) && LeaseSound(s) && WEnabled(s, a)
    requires forall k :: 0 <= k < |s.workers| ==> WorkerSound(s.db, s.workers[k])
    ensures Forward(s, WStep(s, a))
  {
    if a.WClaim? || a.WLock? || a.WMark? || a.WReleaseLock? {
      WorkerLeaseForward(s, a);
    } else if a.WProgress? || a.WBeat? || a.WChild? {
      WorkerProgressForward(s, a);
    } else if a.WCommit? {
      FinalIsForward(s, WStep(s, a), a.k, a.phase);
    }
  }

  lemma FinalIsForward(s: Sys, t: Sys, k: nat, phase: Token)
    requires DbSound(s.db) && LeaseSound(s) && k < |s.workers| && s.workers[k].WFinal?
      && WorkerSound(s.db, s.workers[k])
    requires t.db == Update(s.db, FinalGuard(s.tool, s.workers[k]), To(s.workers[k].result, phase), Always)
    requires t.tool == s.tool && t.launcher == s.launcher && t.readBackFailed == s.readBackFailed
      && t.token0 == s.token0 && t.issued == s.issued
    ensures Forward(s, t)
  {
    UpdateIsForward(s, t, FinalGuard(s.tool, s.workers[k]), To(s.workers[k].result, phase), Always);
  }

  lemma WorkerKeeps(s: Sys, a: Action)
    requires Inv(s) && WEnabled(s, a)
    ensures Inv(WStep(s, a))
  {
    var t := WStep(s, a);
    WorkerStepForward(s, a);
    LauncherStays(s, t);
    Frame(s, t);
  }

  lemma EnvironmentKeeps(s: Sys, a: Action)
    requires Inv(s) && EEnabled(s, a)
    ensures Inv(EStep(s, a))
  {
    var t := EStep(s, a);
    LauncherStays(s, t);
    Frame(s, t);
  }

  ghost predicate Kept(s: Sys, t: Sys)
  {
    Inv(t) && LaterDb(s.db, t.db)
  }

  lemma LaunchStepKeeps(s: Sys, a: Action)
    requires Inv(s) && LEnabled(s, a)
    ensures Kept(s, LStep(s, a))
  {
    LaunchKeeps(s, a);
    LaunchKeepsDb(s, a);
  }

  lemma ReconcileStepKeeps(s: Sys, a: Action)
    requires Inv(s) && REnabled(s, a)
    ensures Kept(s, RStep(s, a))
  {
    ReconcileKeeps(s, a);
    ReconcileStepForward(s, a);
  }

  lemma CancelStepKeeps(s: Sys, a: Action)
    requires Inv(s) && CEnabled(s, a)
    ensures Kept(s, CStep(s, a))
  {
    CancelKeeps(s, a);
    CancelStepForward(s, a);
  }

  lemma WorkerStepKeeps(s: Sys, a: Action)
    requires Inv(s) && WEnabled(s, a)
    ensures Kept(s, WStep(s, a))
  {
    WorkerKeeps(s, a);
    WorkerStepForward(s, a);
  }

  /** Every action of every actor keeps the invariant. */
  lemma StepKeeps(s: Sys, a: Action)
    requires Inv(s) && Enabled(s, a)
    ensures Inv(Step(s, a)) && LaterDb(s.db, Step(s, a).db)
  {
    assert Kept(s, Step(s, a)) by { AnyStepKeeps(s, a); }
  }

  lemma AnyStepKeeps(s: Sys, a: Action)
    requires Inv(s) && Enabled(s, a)
    ensures Kept(s, Step(s, a))
  {
    if LEnabled(s, a) {
      LaunchStepKeeps(s, a);
    } else if REnabled(s, a) {
      ReconcileStepKeeps(s, a);
    } else if CEnabled(s, a) {
      CancelStepKeeps(s, a);
    } else if WEnabled(s, a) {
      WorkerStepKeeps(s, a);
    } else {
      EnvironmentKeeps(s, a);
    }
  }
}
