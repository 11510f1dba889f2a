/**
 Everybody who writes one run: the launcher that creates it, the worker processes spawned for
 it, any number of restart reconcilers and any number of cancellers. Each works from snapshots
 it read earlier; every action is one read or one transaction, so all interleavings are runs.
 */
module RunProtocol {
  import opened Basics
  import opened RunStore

  datatype Tool = Local | Remote(hasContract: bool) | Legacy

  datatype Launcher =
    | LStart
    | LAcquired
    | LCreated
    | LBound
    | LIntent(intent: Row)
    | LSpawned(intent: Row)
    | LRead(intent: Row, current: Row)
    | LRecorded
    | LFailing
    | LFailSnapshot(snap: Row)
    | LReleasing(token: Token, generation: nat, created: bool)
    | LDone

  datatype Reconciler =
    | RSnapshot(snap: Row)
    | RAdoptLost(snap: Row)
    | RClaim(snap: Row, current: Row)
    | RContain(snap: Row, current: Row)
    | RSpawn(token: Token, reserved: Row)
    | RRecord(token: Token, reserved: Row)
    | RRaised(token: Token, reserved: Row)
    | RFail(snap: Row)
    | RRelease(token: Token, generation: nat)
    | RDone

  datatype Canceller =
    | CSnapshot(snap: Row)
    | CPending(snap: Row)
    | CFinish(snap: Row, ev: Evidence)
    | CCommit(snap: Row, ev: Evidence, version: nat)
    | CLost(token: Token, generation: nat)
    | CRelease(token: Token, generation: nat)
    | CDone

  datatype Worker =
    | WNew(token: Token)
    | WReady(token: Token, generation: nat)
    | WRead(token: Token, generation: nat, version: nat)
    | WClaimed(token: Token, generation: nat)
    | WUnlocked(token: Token, generation: nat)
    | WContain(token: Token, generation: nat, snap: Row)
    | WRunning(token: Token, generation: nat)
    | WFinal(token: Token, generation: nat, version: nat, result: Status)
    | WExit(token: Token, generation: nat)
    | WRelease(token: Token, generation: nat)
    | WDone

  /** `issued` is every lease token handed out; `readBackFailed` records a create whose read-back raised. */
  datatype Sys = Sys(
    tool: Tool,
    lockRequired: bool,
    db: Db,
    token0: Token,
    issued: set<Token>,
    readBackFailed: bool,
    launcher: Launcher,
    recs: seq<Reconciler>,
    cans: seq<Canceller>,
    workers: seq<Worker>)

  // ------------------------------------------------------------ what a canceller may conclude

  datatype Role = ChildRole | WorkerRole | LauncherRole

  datatype Report = Report(role: Role, pid: Pid, terminated: bool)

  /** What a canceller learns from outside the database. */
  datatype Evidence = Evidence(
    reports: seq<Report>,
    workerRunning: bool,
    remoteKnown: bool,
    remoteTerminated: bool,
    completionPersisted: bool,
    childRunning: bool,
    childTerminated: bool)

  /** The processes to terminate: child, worker, launcher, each pid once. */
  function Targets(r: Row): seq<(Role, Pid)>
  {
    (if r.child > 0 then [(ChildRole, r.child)] else [])
    + (if r.worker > 0 && r.worker != r.child then [(WorkerRole, r.worker)] else [])
    + (if r.launcher > 0 && r.launcher != r.child && r.launcher != r.worker then [(LauncherRole, r.launcher)] else [])
  }

  ghost predicate Covers(reports: seq<Report>, targets: seq<(Role, Pid)>)
  {
    |reports| == |targets| && forall i :: 0 <= i < |reports| ==>
      reports[i].role == targets[i].0 && reports[i].pid == targets[i].1
  }

  predicate AllTerminated(reports: seq<Report>)
  {
    forall i :: 0 <= i < |reports| ==> reports[i].terminated
  }

  /** The decision of `cancel_run` between finishing and staying pending. */
  predicate Confirmed(tool: Tool, snap: Row, ev: Evidence)
  {
    if tool.Remote? then
      if snap.launcher == 0 && snap.worker == 0 && snap.child == 0 then true
      else if snap.worker > 0 && ev.workerRunning then false
      else if !ev.remoteKnown || !tool.hasContract then false
      else if !ev.remoteTerminated || !ev.completionPersisted then false
      else snap.child > 0 && ev.childRunning ==> ev.childTerminated
    else
      || (Targets(snap) == []
          && (snap.status.NotStarted? || snap.status.LaunchPending? || snap.status.Queued?
            || snap.status.RecoveryPending?))
      || (ev.reports != [] && AllTerminated(ev.reports))
  }

  /** The loop of `cancel_run` over the recorded processes; `dies` is what termination reports. */
  method TerminateAll(r: Row, dies: Pid -> bool) returns (reports: seq<Report>)
    ensures Covers(reports, Targets(r))
    ensures forall i :: 0 <= i < |reports| ==> reports[i].terminated == dies(reports[i].pid)
  {
    var targets := Targets(r);
    reports := [];
    for i := 0 to |targets|
      invariant |reports| == i
      invariant forall j :: 0 <= j < i ==> reports[j] == Report(targets[j].0, targets[j].1, dies(targets[j].1))
    {
      reports := reports + [Report(targets[i].0, targets[i].1, dies(targets[i].1))];
    }
  }

  // ------------------------------------------------------------ what a reconciler decides

  datatype RemoteView = RemoteEnded(status: Status) | RemoteUncertain

  datatype Probes = Probes(workerVerified: bool, launcherRunning: bool, childRunning: bool, remote: RemoteView)

  datatype Plan = Adopt | RemoteFinish(status: Status) | MarkRecovery | Await | Relaunch | FailNow

  /** The branches of `_reconcile_run`, in their order. */
  function Decide(tool: Tool, snap: Row, probes: Probes): Plan
  {
    if probes.workerVerified then Adopt
    else if tool.Remote? then
      if !tool.hasContract then MarkRecovery
      else match probes.remote
        case RemoteEnded(status) => RemoteFinish(if Terminal(status) then status else Failed)
        case RemoteUncertain => MarkRecovery
    else if probes.childRunning then MarkRecovery
    else if snap.status.LaunchPending? || snap.status.Queued? then
      if tool.Legacy? then MarkRecovery
      else if probes.launcherRunning then Await
      else if snap.attempts < 2 then Relaunch
      else FailNow
    else if snap.status.Running? then
      if snap.worker > 0 && snap.identity > 0 then FailNow else MarkRecovery
    else Await
  }

  // ------------------------------------------------------------ guards and changes of the call sites

  function Exactly(snap: Row): Guard
  {
    Guard(Some({snap.status}), Some(snap.version), Some(snap.token), Some(snap.generation), None, true)
  }

  /** The guard of `_fail_recovery`, `mark_recovery_pending` and the like: the whole snapshot, heartbeat included. */
  function ExactlyWithBeat(snap: Row): Guard
  {
    Exactly(snap).(heartbeat := Some(snap.heartbeat))
  }

  function LaunchGuard(intent: Row, token: Token): Guard
  {
    Guard(Some({LaunchPending}), Some(intent.version), Some(token), Some(intent.generation), None, true)
  }

  function To(status: Status, phase: Token): Change
  {
    NOTHING.(status := Some(status), phase := Some(phase))
  }

  /** `record_worker_launch`: one more attempt than on the row it read just before. */
  function RecordChange(current: Row, pid: Pid, now: Token, phase: Token): Change
  {
    To(Queued, phase).(launcher := Some(pid), heartbeat := Some(now), attempts := Some(current.attempts + 1))
  }

  function ClaimGuard(w: Worker): Guard
    requires w.WRead?
  {
    Guard(Some({LaunchPending, Queued}), Some(w.version), Some(w.token), Some(w.generation), None, true)
  }

  function LeaseGuard(statuses: set<Status>, token: Token, generation: nat): Guard
  {
    Guard(Some(statuses), None, Some(token), Some(generation), None, false)
  }

  function FinalStatuses(tool: Tool, result: Status): set<Status>
  {
    if tool.Remote? && (result.Cancelled? || result.TimedOut?) then {Running, CancellationPending} else {Running}
  }

  function FinalGuard(tool: Tool, w: Worker): Guard
    requires w.WFinal?
  {
    Guard(Some(if Terminal(w.result) then FinalStatuses(tool, w.result) else {Running}),
          Some(w.version), Some(w.token), Some(w.generation), None, true)
  }

  function CommitGuard(c: Canceller): Guard
    requires c.CCommit?
  {
    Guard(Some({CancellationPending}), Some(c.version), Some(c.snap.token), Some(c.snap.generation), None, true)
  }

  function ContainGuard(snap: Row, current: Row): Guard
  {
    Guard(Some({Running}), Some(current.version), Some(snap.token), Some(snap.generation), Some(current.heartbeat),
      true)
  }

  const TERMINALS: set<Status> := {Completed, Partial, Failed, Cancelled, TimedOut, NeedsInput}

  datatype CreateOutcome = Raised | Created | CreatedUnread

  datatype Action =
    | LAcquire(owner: Pid)
    | LCreate(outcome: CreateOutcome, now: Token, phase: Token)
    | LBind(raised: bool)
    | LReadIntent(raised: bool)
    | LSpawn(raised: bool)
    | LReread
    | LRecord(pid: Pid, now: Token, phase: Token, raised: bool)
    | LFinish(raised: bool)
    | LFailRead
    | LFail(phase: Token)
    | LRelease
    | RBegin
    | RAct(k: nat, probes: Probes, newToken: Token, owner: Pid, now: Token, phase: Token)
    | RReread(k: nat, verified: bool)
    | RClaimLock(k: nat)
    | RMark(k: nat, phase: Token)
    | RSpawnWorker(k: nat, raised: bool)
    | RRecordLaunch(k: nat, pid: Pid, now: Token, phase: Token, raised: bool)
    | RRefail(k: nat)
    | RFailNow(k: nat, phase: Token)
    | RReleaseLock(k: nat)
    | CBegin(published: bool)
    | CMark(k: nat, phase: Token)
    | CDecide(k: nat, ev: Evidence, phase: Token)
    | CRead(k: nat)
    | CCommitCancel(k: nat, phase: Token)
    | CLook(k: nat, published: bool)
    | CReleaseLock(k: nat)
    | WInit(k: nat)
    | WLook(k: nat)
    | WClaim(k: nat, pid: Pid, identity: Token, now: Token, phase: Token)
    | WLock(k: nat, pid: Pid)
    | WReread(k: nat)
    | WMark(k: nat, phase: Token)
    | WProgress(k: nat, phase: Token, now: Token)
    | WBeat(k: nat, now: Token)
    | WChild(k: nat, pid: Pid, now: Token)
    | WReadFinal(k: nat, result: Status)
    | WCommit(k: nat, phase: Token, again: bool)
    | WLookFinal(k: nat)
    | WReleaseLock(k: nat)
    | Publication(version: nat)
    | Note(phase: Token, now: Token)
    | ForeignLock(lock: Option<LockRow>)
    | StaleTakeover(lock: Option<LockRow>)

  ghost predicate LEnabled(s: Sys, a: Action)
  {
    match a
    case LAcquire(_) => s.launcher.LStart?
    case LCreate(_, _, _) => s.launcher.LAcquired?
    case LBind(_) => s.launcher.LCreated?
    case LReadIntent(_) => s.launcher.LBound? && s.db.row.Some?
    case LSpawn(_) => s.launcher.LIntent?
    case LReread => s.launcher.LSpawned? && s.db.row.Some?
    case LRecord(_, _, _, _) => s.launcher.LRead?
    case LFinish(_) => s.launcher.LRecorded?
    case LFailRead => s.launcher.LFailing? && s.db.row.Some?
    case LFail(_) => s.launcher.LFailSnapshot?
    case LRelease => s.launcher.LReleasing?
    case _ => false
  }

  ghost predicate REnabled(s: Sys, a: Action)
  {
    match a
    case RBegin => s.db.row.Some? && !Terminal(s.db.row.value.status)
    case RAct(k, _, newToken, _, _, _) => k < |s.recs| && s.recs[k].RSnapshot? && newToken !in s.issued
    case RReread(k, _) => k < |s.recs| && s.recs[k].RAdoptLost? && s.db.row.Some?
    case RClaimLock(k) => k < |s.recs| && s.recs[k].RClaim?
    case RMark(k, _) => k < |s.recs| && s.recs[k].RContain?
    case RSpawnWorker(k, _) => k < |s.recs| && s.recs[k].RSpawn?
    case RRecordLaunch(k, _, _, _, _) => k < |s.recs| && s.recs[k].RRecord?
    case RRefail(k) => k < |s.recs| && s.recs[k].RRaised? && s.db.row.Some?
    case RFailNow(k, _) => k < |s.recs| && s.recs[k].RFail?
    case RReleaseLock(k) => k < |s.recs| && s.recs[k].RRelease?
    case _ => false
  }

  ghost predicate CEnabled(s: Sys, a: Action)
  {
    match a
    case CBegin(_) => s.db.row.Some?
    case CMark(k, _) => k < |s.cans| && s.cans[k].CSnapshot?
    case CDecide(k, ev, _) =>
      k < |s.cans| && s.cans[k].CPending? && (!s.tool.Remote? ==> Covers(ev.reports, Targets(s.cans[k].snap)))
    case CRead(k) => k < |s.cans| && s.cans[k].CFinish? && s.db.row.Some?
    case CCommitCancel(k, _) => k < |s.cans| && s.cans[k].CCommit?
    case CLook(k, _) => k < |s.cans| && s.cans[k].CLost? && s.db.row.Some?
    case CReleaseLock(k) => k < |s.cans| && s.cans[k].CRelease?
    case _ => false
  }

  ghost predicate WEnabled(s: Sys, a: Action)
  {
    match a
    case WInit(k) => k < |s.workers| && s.workers[k].WNew? && s.db.row.Some?
    case WLook(k) => k < |s.workers| && s.workers[k].WReady? && s.db.row.Some?
    case WClaim(k, _, _, _, _) => k < |s.workers| && s.workers[k].WRead?
    case WLock(k, _) => k < |s.workers| && s.workers[k].WClaimed?
    case WReread(k) => k < |s.workers| && s.workers[k].WUnlocked? && s.db.row.Some?
    case WMark(k, _) => k < |s.workers| && s.workers[k].WContain?
    case WProgress(k, _, _) => k < |s.workers| && s.workers[k].WRunning?
    case WBeat(k, _) => k < |s.workers| && s.workers[k].WRunning?
    case WChild(k, _, _) => k < |s.workers| && s.workers[k].WRunning?
    case WReadFinal(k, result) =>
      k < |s.workers| && s.workers[k].WRunning? && s.db.row.Some? && (Terminal(result) || result.CancellationPending?)
    case WCommit(k, _, _) => k < |s.workers| && s.workers[k].WFinal?
    case WLookFinal(k) => k < |s.workers| && s.workers[k].WExit? && s.db.row.Some?
    case WReleaseLock(k) => k < |s.workers| && s.workers[k].WRelease?
    case _ => false
  }

  ghost predicate Mine(db: Db, lock: Option<LockRow>)
  {
    lock.Some? && lock.value.run == db.run
  }

  /** Other runs only ever touch lock rows that carry their own id, or one whose finished run left it behind. */
  ghost predicate EEnabled(s: Sys, a: Action)
  {
    match a
    case Publication(_) => true
    case Note(_, _) => s.db.row.Some?
    case ForeignLock(lock) => !Mine(s.db, s.db.lock) && !Mine(s.db, lock)
    case StaleTakeover(lock) =>
      Mine(s.db, s.db.lock) && s.db.row.Some? && Terminal(s.db.row.value.status) && !Mine(s.db, lock)
    case _ => false
  }

  ghost predicate Enabled(s: Sys, a: Action)
  {
    LEnabled(s, a) || REnabled(s, a) || CEnabled(s, a) || WEnabled(s, a) || EEnabled(s, a)
  }

  // ------------------------------------------------------------ the launcher

  ghost function LStep(s: Sys, a: Action): Sys
    requires LEnabled(s, a)
  {
    match a
    case LAcquire(owner) =>
      if !s.lockRequired then s.(launcher := LAcquired)
      else if s.db.lock.Some? then s.(launcher := LDone)
      else s.(db := Acquire(s.db, s.token0, owner), launcher := LAcquired)
    case LCreate(outcome, now, phase) =>
      var failed := if s.lockRequired then LReleasing(s.token0, 1, false) else LDone;
      if outcome.Raised? then s.(launcher := failed)
      else if outcome.Created? then s.(db := Create(s.db, s.token0, now, phase), launcher := LCreated)
      else s.(db := Create(s.db, s.token0, now, phase), readBackFailed := true, launcher := failed)
    case LBind(raised) =>
      if raised then s.(launcher := LFailing)
      else if !s.lockRequired then s.(launcher := LBound)
      else s.(db := Bind(s.db, s.token0, 1), launcher := if Locks(s.db, s.token0, 1) then LBound else LFailing)
    case LReadIntent(raised) => s.(launcher := if raised then LFailing else LIntent(s.db.row.value))
    case LSpawn(raised) =>
      if raised then s.(launcher := LFailing)
      else s.(launcher := LSpawned(s.launcher.intent), workers := s.workers + [WNew(s.token0)])
    case LReread => s.(launcher := LRead(s.launcher.intent, s.db.row.value))
    case LRecord(pid, now, phase, raised) =>
      var g := LaunchGuard(s.launcher.intent, s.token0);
      var c := RecordChange(s.launcher.current, pid, now, phase);
      s.(db := Update(s.db, g, c, Always), launcher := if raised then LFailing else LRecorded)
    case LFinish(raised) => s.(launcher := if raised then LFailing else LDone)
    case LFailRead => s.(launcher := LFailSnapshot(s.db.row.value))
    case LFail(phase) =>
      var snap := s.launcher.snap;
      s.(db := Update(s.db, ExactlyWithBeat(snap), To(Failed, phase), Always),
         launcher := if Updates(s.db, ExactlyWithBeat(snap)) && s.lockRequired
           then LReleasing(snap.token, snap.generation, true) else LDone)
    case LRelease => s.(db := Release(s.db, s.launcher.token, s.launcher.generation), launcher := LDone)
  }

  // ------------------------------------------------------------ reconcilers

  ghost function SetRec(s: Sys, k: nat, r: Reconciler): Sys
    requires k < |s.recs|
  {
    s.(recs := s.recs[k := r])
  }

  ghost function AdoptStep(s: Sys, k: nat, snap: Row, now: Token, phase: Token): Sys
    requires k < |s.recs|
  {
    var g := ExactlyWithBeat(snap).(statuses := Some({Running}));
    var c := NOTHING.(phase := Some(phase), heartbeat := Some(now));
    if Updates(s.db, g)
      then SetRec(s, k, RClaim(snap, Apply(s.db.row.value, c, Always))).(db := Update(s.db, g, c, Always))
    else SetRec(s, k, RAdoptLost(snap))
  }

  /** A terminal transition guarded by the snapshot; the lock is released only if it went through. */
  ghost function EndStep(s: Sys, k: nat, snap: Row, g: Guard, status: Status, phase: Token): Sys
    requires k < |s.recs|
  {
    SetRec(s, k, if Updates(s.db, g) then RRelease(snap.token, snap.generation) else RDone)
    .(db := Update(s.db, g, To(status, phase), Always))
  }

  ghost function RelaunchStep(s: Sys, k: nat, snap: Row, newToken: Token, owner: Pid, now: Token, phase: Token): Sys
    requires k < |s.recs|
  {
    if CanReserve(s.db, {snap.status}, snap.version, snap.token, snap.generation) then
      var db := Reserve(s.db, {snap.status}, snap.version, snap.token, snap.generation, newToken, owner, now, phase);
      SetRec(s, k, RSpawn(newToken, db.row.value)).(db := db, issued := s.issued + {newToken})
    else SetRec(s, k, RDone)
  }

  ghost function RActStep(s: Sys, k: nat, probes: Probes, newToken: Token, owner: Pid, now: Token, phase: Token): Sys
    requires k < |s.recs| && s.recs[k].RSnapshot?
  {
    var snap := s.recs[k].snap;
    match Decide(s.tool, snap, probes)
    case Adopt => AdoptStep(s, k, snap, now, phase)
    case RemoteFinish(status) => EndStep(s, k, snap, Exactly(snap), status, phase)
    case MarkRecovery =>
      SetRec(s, k, RDone).(db := Update(s.db, ExactlyWithBeat(snap), To(RecoveryPending, phase), Always))
    case Await => SetRec(s, k, RDone)
    case Relaunch => RelaunchStep(s, k, snap, newToken, owner, now, phase)
    case FailNow => EndStep(s, k, snap, ExactlyWithBeat(snap), Failed, phase)
  }

  ghost function RStep(s: Sys, a: Action): Sys
    requires REnabled(s, a)
  {
    match a
    case RBegin => s.(recs := s.recs + [RSnapshot(s.db.row.value)])
    case RAct(k, probes, newToken, owner, now, phase) => RActStep(s, k, probes, newToken, owner, now, phase)
    case RReread(k, verified) =>
      var snap := s.recs[k].snap;
      var current := s.db.row.value;
      SetRec(s, k, if current.status.Running? && current.token == snap.token && current.generation == snap.generation
        && verified
                   then RClaim(snap, current) else RDone)
    case RClaimLock(k) =>
      var r := s.recs[k];
      if !s.lockRequired then SetRec(s, k, RDone)
      else
        SetRec(s, k, if Locks(s.db, r.snap.token, r.snap.generation) then RDone else RContain(r.snap, r.current))
        .(db := ClaimOwner(s.db, r.current.worker, r.snap.token, r.snap.generation))
    case RMark(k, phase) =>
      var r := s.recs[k];
      SetRec(s, k, RDone).(db := Update(s.db, ContainGuard(r.snap, r.current), To(RecoveryPending, phase), Always))
    case RSpawnWorker(k, raised) =>
      var r := s.recs[k];
      if raised then SetRec(s, k, RRaised(r.token, r.reserved))
      else SetRec(s, k, RRecord(r.token, r.reserved)).(workers := s.workers + [WNew(r.token)])
    case RRecordLaunch(k, pid, now, phase, raised) =>
      var r := s.recs[k];
      var c := To(Queued, phase).(launcher := Some(pid), heartbeat := Some(now));
      SetRec(s, k, if raised then RRaised(r.token, r.reserved) else RDone)
      .(db := Update(s.db, LaunchGuard(r.reserved, r.token), c, Always))
    case RRefail(k) =>
      var r := s.recs[k];
      var current := s.db.row.value;
      SetRec(s, k, if current.token == r.token && current.generation == r.reserved.generation then RFail(current)
        else RDone)
    case RFailNow(k, phase) => EndStep(s, k, s.recs[k].snap, ExactlyWithBeat(s.recs[k].snap), Failed, phase)
    case RReleaseLock(k) => SetRec(s, k, RDone).(db := Release(s.db, s.recs[k].token, s.recs[k].generation))
  }

  // ------------------------------------------------------------ cancellers

  ghost function SetCan(s: Sys, k: nat, c: Canceller): Sys
    requires k < |s.cans|
  {
    s.(cans := s.cans[k := c])
  }

  ghost function CStep(s: Sys, a: Action): Sys
    requires CEnabled(s, a)
  {
    match a
    case CBegin(published) =>
      var r := s.db.row.value;
      s.(cans := s.cans + [if Terminal(r.status) then (if published then CRelease(r.token, r.generation) else CDone)
                           else if r.status.CancellationPending? then CDone
                           else CSnapshot(r)])
    case CMark(k, phase) =>
      var snap := s.cans[k].snap;
      SetCan(s, k, if Updates(s.db, Exactly(snap)) then CPending(snap) else CLost(snap.token, snap.generation))
      .(db := Update(s.db, Exactly(snap), To(CancellationPending, phase), Always))
    case CDecide(k, ev, phase) =>
      var snap := s.cans[k].snap;
      if Confirmed(s.tool, snap, ev) then SetCan(s, k, CFinish(snap, ev))
      else
        SetCan(s, k, CDone)
        .(db := Update(s.db, LeaseGuard({CancellationPending}, snap.token, snap.generation),
          NOTHING.(phase := Some(phase)), Never))
    case CRead(k) => SetCan(s, k, CCommit(s.cans[k].snap, s.cans[k].ev, s.db.row.value.version))
    case CCommitCancel(k, phase) =>
      var c := s.cans[k];
      SetCan(s, k, if Updates(s.db, CommitGuard(c)) then CRelease(c.snap.token, c.snap.generation)
                   else CLost(c.snap.token, c.snap.generation))
      .(db := Update(s.db, CommitGuard(c), To(Cancelled, phase), Always))
    case CLook(k, published) =>
      SetCan(s, k, if Terminal(s.db.row.value.status) && published then CRelease(s.cans[k].token, s.cans[k].generation)
        else CDone)
    case CReleaseLock(k) => SetCan(s, k, CDone).(db := Release(s.db, s.cans[k].token, s.cans[k].generation))
  }

  // ------------------------------------------------------------ workers

  ghost function SetWorker(s: Sys, k: nat, w: Worker): Sys
    requires k < |s.workers|
  {
    s.(workers := s.workers[k := w])
  }

  ghost function WStep(s: Sys, a: Action): Sys
    requires WEnabled(s, a)
  {
    match a
    case WInit(k) => SetWorker(s, k, WReady(s.workers[k].token, s.db.row.value.generation))
    case WLook(k) =>
      SetWorker(s, k, if s.db.row.value.status.Cancelled? then WDone
                      else WRead(s.workers[k].token, s.workers[k].generation, s.db.row.value.version))
    case WClaim(k, pid, identity, now, phase) =>
      var w := s.workers[k];
      var c := To(Running, phase).(worker := Some((pid, identity)), heartbeat := Some(now));
      SetWorker(s, k, if Updates(s.db, ClaimGuard(w)) then WClaimed(w.token, w.generation) else WDone)
      .(db := Update(s.db, ClaimGuard(w), c, Always))
    case WLock(k, pid) =>
      var w := s.workers[k];
      if !s.lockRequired then SetWorker(s, k, WRunning(w.token, w.generation))
      else
        SetWorker(s, k, if Locks(s.db, w.token, w.generation) then WRunning(w.token, w.generation)
          else WUnlocked(w.token, w.generation))
        .(db := ClaimOwner(s.db, pid, w.token, w.generation))
    case WReread(k) => SetWorker(s, k, WContain(s.workers[k].token, s.workers[k].generation, s.db.row.value))
    case WMark(k, phase) =>
      var w := s.workers[k];
      SetWorker(s, k, WDone)
      .(db := Update(s.db, ContainGuard(w.snap.(token := w.token, generation := w.generation), w.snap),
        To(RecoveryPending, phase), Always))
    case WProgress(k, phase, now) =>
      var w := s.workers[k];
      s.(db := Update(s.db, LeaseGuard({Running}, w.token, w.generation),
        NOTHING.(phase := Some(phase), heartbeat := Some(now)), OnPhaseChange))
    case WBeat(k, now) =>
      var w := s.workers[k];
      s.(db := Update(s.db, LeaseGuard({Running}, w.token, w.generation), NOTHING.(heartbeat := Some(now)), Never))
    case WChild(k, pid, now) =>
      var w := s.workers[k];
      s.(db := Update(s.db, LeaseGuard({Running}, w.token, w.generation),
        NOTHING.(child := Some(pid), heartbeat := Some(now)), Always))
    case WReadFinal(k, result) =>
      SetWorker(s, k, WFinal(s.workers[k].token, s.workers[k].generation, s.db.row.value.version, result))
    case WCommit(k, phase, again) =>
      var w := s.workers[k];
      SetWorker(s, k, if again then WRunning(w.token, w.generation) else WExit(w.token, w.generation))
      .(db := Update(s.db, FinalGuard(s.tool, w), To(w.result, phase), Always))
    case WLookFinal(k) =>
      var w := s.workers[k];
      SetWorker(s, k, if s.lockRequired && !s.db.row.value.status.CancellationPending?
        then WRelease(w.token, w.generation) else WDone)
    case WReleaseLock(k) => SetWorker(s, k, WDone).(db := Release(s.db, s.workers[k].token, s.workers[k].generation))
  }

  ghost function EStep(s: Sys, a: Action): Sys
    requires EEnabled(s, a)
  {
    match a
    case Publication(version) =>
      s.(db := Update(s.db, Guard(Some(TERMINALS), Some(version), None, None, None, false), NOTHING, Always))
    case Note(phase, now) =>
      s.(db := Update(s.db, Guard(None, None, None, None, None, false),
        NOTHING.(phase := Some(phase), heartbeat := Some(now)), OnPhaseChange))
    case ForeignLock(lock) => s.(db := s.db.(lock := lock))
    case StaleTakeover(lock) => s.(db := BumpVersion(s.db.(lock := lock)))
  }

  ghost function Step(s: Sys, a: Action): Sys
    requires Enabled(s, a)
  {
    if LEnabled(s, a) then LStep(s, a)
    else if REnabled(s, a) then RStep(s, a)
    else if CEnabled(s, a) then CStep(s, a)
    else if WEnabled(s, a) then WStep(s, a)
    else EStep(s, a)
  }

  /** Where an action leads, if it is enabled. */
  ghost function Goes(s: Sys, a: Action): Option<Sys>
  {
    if Enabled(s, a) then Some(Step(s, a)) else None
  }

  ghost predicate Initial(s: Sys)
  {
    && s.db.row.None? && !Mine(s.db, s.db.lock)
    && s.issued == {s.token0} && !s.readBackFailed
    && s.launcher.LStart? && s.recs == [] && s.cans == [] && s.workers == []
  }
}
