/**
 The durable row of one run and the repository lock row, with the guarded updates that
 every launcher, worker, canceller and reconciler goes through.

 The functions give each SQL transaction as a value; the class applies them to stored state.
 */
module RunStore {
  import opened Basics

  type RunId = Token
  type Pid = nat

  datatype Status =
    | NotStarted          // "pending"
    | LaunchPending
    | Queued
    | Running
    | CancellationPending
    | RecoveryPending
    | Completed
    | Partial
    | Failed
    | Cancelled
    | TimedOut
    | NeedsInput

  predicate Terminal(s: Status)
  {
    s.Completed? || s.Partial? || s.Failed? || s.Cancelled? || s.TimedOut? || s.NeedsInput?
  }

  /** No process may be recorded and no launch reserved any more. */
  predicate Frozen(s: Status)
  {
    s.CancellationPending? || s.RecoveryPending? || Terminal(s)
  }

  /** A pid of 0 stands for NULL. */
  datatype Row = Row(
    status: Status,
    version: nat,
    token: Token,
    generation: nat,
    attempts: nat,
    launcher: Pid,
    worker: Pid,
    identity: Token,
    child: Pid,
    heartbeat: Token,
    phase: Token)

  datatype LockRow = LockRow(run: RunId, token: Token, generation: nat, owner: Pid, bound: bool)

  /** The stored state as one run sees it: its own row, and the lock of its repository. */
  datatype Db = Db(run: RunId, row: Option<Row>, lock: Option<LockRow>)

  /** The optional conditions of `conditional_update`. */
  datatype Guard = Guard(
    statuses: Option<set<Status>>,
    version: Option<nat>,
    token: Option<Token>,
    generation: Option<nat>,
    heartbeat: Option<Token>,
    rejectTerminal: bool)

  predicate Matches(r: Row, g: Guard)
  {
    && (g.statuses.Some? ==> r.status in g.statuses.value)
    && (g.version.Some? ==> r.version == g.version.value)
    && (g.token.Some? ==> r.token == g.token.value)
    && (g.generation.Some? ==> r.generation == g.generation.value)
    && (g.heartbeat.Some? ==> r.heartbeat == g.heartbeat.value)
    && (g.rejectTerminal ==> !Terminal(r.status))
  }

  datatype Bump = Always | Never | OnPhaseChange

  /** The fields an update may set; `None` leaves the column alone. */
  datatype Change = Change(
    status: Option<Status>,
    phase: Option<Token>,
    heartbeat: Option<Token>,
    launcher: Option<Pid>,
    worker: Option<(Pid, Token)>,
    child: Option<Pid>,
    attempts: Option<nat>)

  const NOTHING := Change(None, None, None, None, None, None, None)

  function Or<T>(o: Option<T>, d: T): T { if o.Some? then o.value else d }

  function Apply(r: Row, c: Change, b: Bump): Row
  {
    var bumped := match b
      case Always => r.version + 1
      case Never => r.version
      case OnPhaseChange => if c.phase.Some? && c.phase.value != r.phase then r.version + 1 else r.version;
    r.(status := Or(c.status, r.status),
       phase := Or(c.phase, r.phase),
       heartbeat := Or(c.heartbeat, r.heartbeat),
       launcher := Or(c.launcher, r.launcher),
       worker := if c.worker.Some? then c.worker.value.0 else r.worker,
       identity := if c.worker.Some? then c.worker.value.1 else r.identity,
       child := Or(c.child, r.child),
       attempts := Or(c.attempts, r.attempts),
       version := bumped)
  }

  /** `conditional_update`: the row after the update, or nothing at all. */
  function Update(db: Db, g: Guard, c: Change, b: Bump): Db
  {
    if Updates(db, g) then db.(row := Some(Apply(db.row.value, c, b))) else db
  }

  predicate Updates(db: Db, g: Guard)
  {
    db.row.Some? && Matches(db.row.value, g)
  }

  function BumpVersion(db: Db): Db
  {
    if db.row.Some? then db.(row := Some(db.row.value.(version := db.row.value.version + 1))) else db
  }

  /** The lock row that the statements of `OperationLockStore` address. */
  predicate Locks(db: Db, token: Token, generation: nat)
  {
    db.lock.Some? && db.lock.value.run == db.run && db.lock.value.token == token
      && db.lock.value.generation == generation
  }

  function Acquire(db: Db, token: Token, owner: Pid): Db
  {
    if db.lock.Some? then db else Bind(db.(lock := Some(LockRow(db.run, token, 1, owner, false))), token, 1)
  }

  function Create(db: Db, token: Token, now: Token, phase: Token): Db
  {
    if db.row.Some? then db
    else db.(row := Some(Row(LaunchPending, 0, token, 1, 0, 0, 0, 0, 0, now, phase)))
  }

  /** `bind_run_ownership`: the first binding bumps the run's version, later ones change nothing. */
  function Bind(db: Db, token: Token, generation: nat): Db
  {
    if !Locks(db, token, generation) || db.lock.value.bound || db.row.None? then db
    else BumpVersion(db.(lock := Some(db.lock.value.(bound := true))))
  }

  function ClaimOwner(db: Db, owner: Pid, token: Token, generation: nat): Db
  {
    if !Locks(db, token, generation) then db
    else
      var bound := Bind(db, token, generation);
      var moved := bound.(lock := Some(bound.lock.value.(owner := owner)));
      if db.lock.value.owner == owner then moved else BumpVersion(moved)
  }

  function Release(db: Db, token: Token, generation: nat): Db
  {
    if Locks(db, token, generation) then BumpVersion(db.(lock := None)) else db
  }

  /** `reserve_next_launch`: run row and lock row move to the next lease together, or neither does. */
  predicate CanReserve(db: Db, statuses: set<Status>, version: nat, token: Token, generation: nat)
  {
    && db.row.Some?
    && db.row.value.status in statuses && db.row.value.version == version
    && db.row.value.token == token && db.row.value.generation == generation
    && Locks(db, token, generation)
  }

  function Reserve(db: Db, statuses: set<Status>, version: nat, token: Token, generation: nat,
                   newToken: Token, owner: Pid, now: Token, phase: Token): Db
  {
    if !CanReserve(db, statuses, version, token, generation) then db
    else
      var r := db.row.value;
      db.(row := Some(Row(LaunchPending, r.version + 1, newToken, generation + 1, r.attempts + 1, 0, 0, 0, 0, now,
        phase)),
          lock := Some(LockRow(db.run, newToken, generation + 1, owner, true)))
  }

  // ------------------------------------------------------------ what no transaction takes back

  /** The part of a row that decisions are based on. */
  datatype Control = Control(status: Status, token: Token, generation: nat, attempts: nat,
                             launcher: Pid, worker: Pid, identity: Token, child: Pid)

  function ControlOf(r: Row): Control
  {
    Control(r.status, r.token, r.generation, r.attempts, r.launcher, r.worker, r.identity, r.child)
  }

  ghost predicate LaterRow(r: Row, q: Row)
  {
    && r.version <= q.version
    && (r.version == q.version ==> ControlOf(r) == ControlOf(q))
    && r.generation <= q.generation
    && (r.generation == q.generation ==> r.token == q.token)
    && r.attempts <= q.attempts
    && (Terminal(r.status) ==> q.status == r.status)
    && (Frozen(r.status) ==> Frozen(q.status) && ControlOf(q) == ControlOf(r).(status := q.status))
  }

  ghost predicate LaterDb(a: Db, b: Db)
  {
    && a.run == b.run
    && (a.row.Some? ==> b.row.Some? && LaterRow(a.row.value, b.row.value))
  }

  lemma LaterDbTransitive(a: Db, b: Db, c: Db)
    requires LaterDb(a, b) && LaterDb(b, c)
    ensures LaterDb(a, c)
  {
  }

  /** Lock and run agree on the lease, and the lease counts the launches. */
  ghost predicate DbSound(db: Db)
  {
    db.row.Some? ==>
      && (db.lock.Some? && db.lock.value.run == db.run ==>
            db.lock.value.token == db.row.value.token && db.lock.value.generation == db.row.value.generation)
      && 1 <= db.row.value.generation <= db.row.value.attempts + 1
      && db.row.value.attempts <= 2
      && (db.row.value.generation == 1 && db.row.value.status.LaunchPending? ==> db.row.value.attempts == 0)
  }

  /** An update that respects the run's own rules. */
  ghost predicate Admissible(r: Row, c: Change, b: Bump)
  {
    && (c.attempts.Some? ==> r.attempts <= c.attempts.value <= 2)
    && (Terminal(r.status) ==> c.status.None? || c.status.value == r.status)
    && (Frozen(r.status) ==>
          && (c.status.Some? ==> Frozen(c.status.value))
          && c.launcher.None? && c.worker.None? && c.child.None? && c.attempts.None?)
    && (c.status.Some? && c.status.value.LaunchPending? ==> r.status.LaunchPending?)
    && (r.status.LaunchPending? && r.generation == 1 && c.attempts.Some? ==>
      c.status.Some? && !c.status.value.LaunchPending?)
    && (c.status.Some? || c.launcher.Some? || c.worker.Some? || c.child.Some? || c.attempts.Some? ==> b.Always?)
  }

  lemma UpdateIsLater(db: Db, g: Guard, c: Change, b: Bump)
    requires DbSound(db) && (Updates(db, g) ==> Admissible(db.row.value, c, b))
    ensures DbSound(Update(db, g, c, b)) && LaterDb(db, Update(db, g, c, b))
  {
  }

  lemma BindIsLater(db: Db, token: Token, generation: nat)
    requires DbSound(db)
    ensures DbSound(Bind(db, token, generation)) && LaterDb(db, Bind(db, token, generation))
  {
  }

  lemma ClaimIsLater(db: Db, owner: Pid, token: Token, generation: nat)
    requires DbSound(db)
    ensures DbSound(ClaimOwner(db, owner, token, generation)) && LaterDb(db, ClaimOwner(db, owner, token, generation))
  {
    BindIsLater(db, token, generation);
  }

  lemma ReleaseIsLater(db: Db, token: Token, generation: nat)
    requires DbSound(db)
    ensures DbSound(Release(db, token, generation)) && LaterDb(db, Release(db, token, generation))
  {
  }

  /**
   What the lock statements do to the rows: a binding, a change of owner and a release each raise the run's
   version by one, and nothing else of the row changes.
   */
  lemma LockStatements(db: Db, owner: Pid, token: Token, generation: nat)
    requires db.row.Some?
    ensures !Locks(db, token, generation) ==>
      Bind(db, token, generation) == db && ClaimOwner(db, owner, token, generation) == db
        && Release(db, token, generation) == db
    ensures Locks(db, token, generation) ==>
      && var r, l := db.row.value, db.lock.value;
      var bind, move := (if l.bound then 0 else 1), (if l.owner == owner then 0 else 1);
      && Bind(db, token, generation)
         == db.(row := Some(r.(version := r.version + bind)), lock := Some(l.(bound := true)))
      && ClaimOwner(db, owner, token, generation)
         == db.(row := Some(r.(version := r.version + bind + move)), lock := Some(l.(bound := true, owner := owner)))
      && Release(db, token, generation) == db.(row := Some(r.(version := r.version + 1)), lock := None)
  {
  }

  /** A reservation made for an unfrozen row with attempts left keeps the bound of two. */
  lemma ReserveIsLater(db: Db, statuses: set<Status>, version: nat, token: Token, generation: nat,
                       newToken: Token, owner: Pid, now: Token, phase: Token)
    requires DbSound(db)
    requires CanReserve(db, statuses, version, token, generation) ==>
      !Frozen(db.row.value.status) && db.row.value.attempts < 2
    ensures var t := Reserve(db, statuses, version, token, generation, newToken, owner, now, phase);
            DbSound(t) && LaterDb(db, t)
  {
  }

  // ------------------------------------------------------------ the stored state

  class Database {
    const run: RunId
    var row: Option<Row>
    var lock: Option<LockRow>

    ghost function View(): Db
      reads this
    {
      Db(run, row, lock)
    }

    method ConditionalUpdate(g: Guard, c: Change, b: Bump) returns (updated: bool)
      modifies this
      ensures View() == Update(old(View()), g, c, b)
      ensures updated <==> old(Updates(View(), g))
    {
      updated := row.Some? && Matches(row.value, g);
      if updated { row := Some(Apply(row.value, c, b)); }
    }

    method BindRunOwnership(token: Token, generation: nat) returns (bound: bool)
      modifies this
      ensures View() == Bind(old(View()), token, generation)
      ensures bound ==> old(Locks(View(), token, generation))
      ensures old(Locks(View(), token, generation) && row.Some?) ==> bound && lock.Some? && lock.value.bound
    {
      if lock.None? || lock.value.run != run || lock.value.token != token || lock.value.generation != generation {
        return false;
      }
      if lock.value.bound { return true; }
      if row.None? { return false; }
      row := Some(row.value.(version := row.value.version + 1));
      lock := Some(lock.value.(bound := true));
      return true;
    }

    method ReleaseLock(token: Token, generation: nat) returns (released: bool)
      modifies this
      ensures View() == Release(old(View()), token, generation)
      ensures released <==> old(Locks(View(), token, generation))
      ensures released ==> lock.None?
    {
      released := lock.Some? && lock.value.run == run && lock.value.token == token
        && lock.value.generation == generation;
      if released {
        lock := None;
        if row.Some? { row := Some(row.value.(version := row.value.version + 1)); }
      }
    }

    /** Two statements in one transaction: the second failing rolls the first one back. */
    method ReserveNextLaunch(statuses: set<Status>, version: nat, token: Token, generation: nat,
                             newToken: Token, owner: Pid, now: Token, phase: Token) returns (reserved: bool)
      modifies this
      ensures View() == Reserve(old(View()), statuses, version, token, generation, newToken, owner, now, phase)
      ensures reserved <==> old(CanReserve(View(), statuses, version, token, generation))
    {
      var savedRow := row;
      if row.None? || row.value.status !in statuses || row.value.version != version || row.value.token != token
         || row.value.generation != generation {
        return false;
      }
      row := Some(Row(LaunchPending, row.value.version + 1, newToken, generation + 1, row.value.attempts + 1, 0, 0, 0,
        0, now, phase));
      if lock.None? || lock.value.run != run || lock.value.token != token || lock.value.generation != generation {
        row := savedRow;
        return false;
      }
      lock := Some(LockRow(run, newToken, generation + 1, owner, true));
      return true;
    }
  }
}
