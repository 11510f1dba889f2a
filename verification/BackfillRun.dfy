/** One uninterrupted backfill run, as the program performs it on the database and the run directories. */
module BackfillRun {
  import opened Basics
  import opened Traces
  import opened GitEvidence
  import opened Backfill
  import opened BackfillEvidence

  /** What the file system answers for one candidate; `replaced` is what the rename left on disk. */
  datatype World = World(directoryExists: bool, replaced: Option<Bytes>)

  datatype Verdict = Skipped | AlreadyCompact | Failed | Done

  function Judge(env: Env, c: Candidate, apply: bool, w: World): Verdict
  {
    if !c.cell.Json? || !c.cell.value.Object? then Skipped
    else if Inline(env, c.cell) == map[] then AlreadyCompact
    else if !w.directoryExists then Skipped
    else if !Passes(env, c, true) then Failed
    else if !apply then Done
    else if w.replaced.Some? && Checks(env, w.replaced.value, Inline(env, c.cell)) then Done
    else Failed
  }

  /** The row can be externalized at all. */
  ghost predicate Worth(env: Env, c: Candidate)
  {
    c.cell.Json? && c.cell.value.Object? && Inline(env, c.cell) != map[]
  }

  /** The public projection exists and compaction does not change it. */
  ghost predicate SameProjection(env: Env, c: Candidate)
    requires c.cell.Json? && c.cell.value.Object?
  {
    var m := c.cell.value.fields;
    env.project(c.id, m).Some? && env.project(c.id, CompactResult(env.tools, m).compact) == env.project(c.id, m)
  }

  /** What is on disk has the hash and the length of the encoded body. */
  ghost predicate Arrived(env: Env, c: Candidate, w: World)
  {
    && w.replaced.Some?
    && env.hash(w.replaced.value) == env.hash(env.encode(Inline(env, c.cell)))
    && |w.replaced.value| == |env.encode(Inline(env, c.cell))|
  }

  /** What each verdict means. */
  lemma JudgeMeans(env: Env, c: Candidate, apply: bool, w: World)
    ensures Judge(env, c, apply, w).AlreadyCompact? <==>
      c.cell.Json? && c.cell.value.Object? && Inline(env, c.cell) == map[]
    ensures Judge(env, c, apply, w).Skipped? <==>
      !c.cell.Json? || !c.cell.value.Object? || (Worth(env, c) && !w.directoryExists)
    ensures Judge(env, c, apply, w).Done? <==>
      Worth(env, c) && w.directoryExists && SameProjection(env, c) && (apply ==> Arrived(env, c, w))
    ensures Judge(env, c, apply, w).Failed? <==>
      Worth(env, c) && w.directoryExists && !(SameProjection(env, c) && (apply ==> Arrived(env, c, w)))
  {
  }

  /**
   A row worth it, with its directory there, its projection unchanged and its body safely on disk, is
   migrated: the artifact holds what was written, the row refers to it, and progress is recorded.
   */
  lemma MigrationSucceeds(env: Env, db: Db, c: Candidate, w: World)
    requires c.id in db.rows && db.rows[c.id] == c.cell
    requires Worth(env, c) && w.directoryExists && SameProjection(env, c) && Arrived(env, c, w)
    ensures var t, bytes := Process(env, db, c, true, w), w.replaced.value;
      && t.artifacts == db.artifacts[c.id := bytes]
      && t.rows == db.rows[c.id := Migrated(env, c.cell.value.fields, env.hash(bytes), |bytes|)]
      && t.progress == db.progress[c.id := Progress(env.hash(bytes), |bytes|)]
      && Inline(env, t.rows[c.id]) == map[]
  {
    MigratedIsEmpty(env, c.cell.value.fields, env.hash(w.replaced.value), |w.replaced.value|);
  }

  /** The database and directories after one candidate. */
  function Process(env: Env, db: Db, c: Candidate, apply: bool, w: World): Db
  {
    if !apply || !Passes(env, c, w.directoryExists) || w.replaced.None? then db
    else
      var bytes := w.replaced.value;
      var after := db.(artifacts := db.artifacts[c.id := bytes]);
      if Checks(env, bytes, Inline(env, c.cell)) then Commit(env, after, c, env.hash(bytes), |bytes|) else after
  }

  lemma ProcessKeeps(env: Env, origin: Db, db: Db, c: Candidate, apply: bool, w: World)
    requires CollisionFree(env) && Safe(env, origin, db) && c.id in db.rows && db.rows[c.id] == c.cell
    ensures Safe(env, origin, Process(env, db, c, apply, w))
  {
    if apply && Passes(env, c, w.directoryExists) && w.replaced.Some? {
      WriteKeeps(env, origin, db, c, w.replaced.value);
    }
  }

  /** Replacing the artifact, and committing if it checks. */
  lemma WriteKeeps(env: Env, origin: Db, db: Db, c: Candidate, bytes: Bytes)
    requires CollisionFree(env) && Safe(env, origin, db) && c.id in db.rows && db.rows[c.id] == c.cell
      && Inline(env, c.cell) != map[]
    ensures var after := db.(artifacts := db.artifacts[c.id := bytes]);
      && Safe(env, origin, after)
      && (Checks(env, bytes, Inline(env, c.cell)) ==>
            Safe(env, origin, Commit(env, after, c, env.hash(bytes), |bytes|)))
  {
    var after := db.(artifacts := db.artifacts[c.id := bytes]);
    ReplaceKeeps(env, origin, db, c.id, bytes);
    if Checks(env, bytes, Inline(env, c.cell)) { CheckedCommitKeeps(env, origin, after, c); }
  }

  lemma CheckedCommitKeeps(env: Env, origin: Db, db: Db, c: Candidate)
    requires CollisionFree(env) && Safe(env, origin, db) && c.id in db.rows && db.rows[c.id] == c.cell
      && Inline(env, c.cell) != map[]
    requires c.id in db.artifacts && Checks(env, db.artifacts[c.id], Inline(env, c.cell))
    ensures Safe(env, origin, Commit(env, db, c, env.hash(db.artifacts[c.id]), |db.artifacts[c.id]|))
  {
    var bytes, encoded := db.artifacts[c.id], env.encode(Inline(env, c.cell));
    assert env.hash(bytes) == env.hash(encoded) && |bytes| == |encoded|;
    CommitKeeps(env, origin, db, c, env.hash(bytes), |bytes|);
  }

  /** Only the candidate's own row can change, exactly when an applying run reports it migrated. */
  lemma ProcessIsLocal(env: Env, db: Db, c: Candidate, apply: bool, w: World, id: Token)
    requires c.id in db.rows && db.rows[c.id] == c.cell && id in db.rows
    ensures id in Process(env, db, c, apply, w).rows
    ensures Process(env, db, c, apply, w).rows[id] != db.rows[id] <==>
      id == c.id && apply && Judge(env, c, apply, w) == Done
  {
    if id == c.id && Inline(env, c.cell) != map[] && w.replaced.Some? {
      MigratedIsEmpty(env, c.cell.value.fields, env.hash(w.replaced.value), |w.replaced.value|);
    }
  }

  /** The candidates as `iter_candidates` lists them: each row once, as it is. */
  ghost predicate Snapshots(db: Db, candidates: seq<Candidate>)
  {
    && (forall i :: 0 <= i < |candidates| ==>
      candidates[i].id in db.rows && db.rows[candidates[i].id] == candidates[i].cell)
    && (forall i, j :: 0 <= i < j < |candidates| ==> candidates[i].id != candidates[j].id)
  }

  datatype Tally = Tally(examined: nat, migrated: nat, failures: seq<Token>)

  /** What the first `n` candidates add up to. */
  function TallyOf(
      env: Env, apply: bool, candidates: seq<Candidate>, worlds: seq<World>, done: set<Token>, n: nat): Tally
    requires n <= |candidates| == |worlds|
  {
    if n == 0 then Tally(0, 0, [])
    else
      var before, c := TallyOf(env, apply, candidates, worlds, done, n - 1), candidates[n - 1];
      if c.id in done then before else AddTo(before, Judge(env, c, apply, worlds[n - 1]), c.id)
  }

  function AddTo(t: Tally, verdict: Verdict, id: Token): Tally
  {
    Tally(t.examined + 1, t.migrated + (if verdict == Done then 1 else 0),
          t.failures + (if verdict == Failed then [id] else []))
  }

  lemma TallyNext(
      env: Env, apply: bool, candidates: seq<Candidate>, worlds: seq<World>, done: set<Token>, n: nat)
    requires n < |candidates| == |worlds|
    ensures var before, c := TallyOf(env, apply, candidates, worlds, done, n), candidates[n];
      TallyOf(env, apply, candidates, worlds, done, n + 1) ==
      if c.id in done then before else AddTo(before, Judge(env, c, apply, worlds[n]), c.id)
  {
  }

  /** The rows of the first `i` candidates changed exactly where they were migrated. */
  ghost predicate Settled(
      env: Env, db: Db, apply: bool, candidates: seq<Candidate>, worlds: seq<World>, done: set<Token>, i: nat)
    requires i <= |candidates| == |worlds|
  {
    forall j :: 0 <= j < i ==>
      && candidates[j].id in db.rows
      && (db.rows[candidates[j].id] != candidates[j].cell <==>
            apply && candidates[j].id !in done && Judge(env, candidates[j], apply, worlds[j]) == Done)
  }

  lemma VisitSettles(
      env: Env, db: Db, apply: bool, candidates: seq<Candidate>, worlds: seq<World>, done: set<Token>, i: nat)
    requires i < |candidates| == |worlds| && Settled(env, db, apply, candidates, worlds, done, i)
    requires candidates[i].id !in done && candidates[i].id in db.rows && db.rows[candidates[i].id] == candidates[i].cell
    requires forall j :: 0 <= j < i ==> candidates[j].id != candidates[i].id
    ensures Settled(env, Process(env, db, candidates[i], apply, worlds[i]), apply, candidates, worlds, done, i + 1)
  {
    forall j | 0 <= j <= i
      ensures candidates[j].id in Process(env, db, candidates[i], apply, worlds[i]).rows
      ensures Process(env, db, candidates[i], apply, worlds[i]).rows[candidates[j].id] != db.rows[candidates[j].id] <==>
              j == i && apply && Judge(env, candidates[i], apply, worlds[i]) == Done
    {
      ProcessIsLocal(env, db, candidates[i], apply, worlds[i], candidates[j].id);
    }
  }

  /** Where the run stands before candidate `i`. */
  ghost predicate UnderWay(env: Env, origin: Db, db: Db, candidates: seq<Candidate>, i: nat, apply: bool)
    requires i <= |candidates|
  {
    && (CollisionFree(env) ==> Safe(env, origin, db))
    && (!apply ==> db == origin)
    && db.rows.Keys == origin.rows.Keys
    && Snapshots(db, candidates[i..])
    && (forall id :: id in db.rows && db.rows[id] != origin.rows[id] ==> apply && id !in origin.progress)
  }

  lemma Visit(env: Env, origin: Db, db: Db, candidates: seq<Candidate>, i: nat, apply: bool, w: World)
    requires i < |candidates| && UnderWay(env, origin, db, candidates, i, apply)
    requires apply ==> candidates[i].id !in origin.progress
    ensures UnderWay(env, origin, Process(env, db, candidates[i], apply, w), candidates, i + 1, apply)
  {
    var c, rest := candidates[i], candidates[i..];
    assert rest[0] == c && rest[1..] == candidates[i + 1..];
    assert forall j :: 0 <= j < |rest[1..]| ==> rest[1..][j] == rest[j + 1];
    if CollisionFree(env) { ProcessKeeps(env, origin, db, c, apply, w); }
    forall id | id in db.rows
      ensures id in Process(env, db, c, apply, w).rows
      ensures Process(env, db, c, apply, w).rows[id] != db.rows[id] ==> id == c.id && apply
    {
      ProcessIsLocal(env, db, c, apply, w, id);
    }
  }

  /** Everything that holds of the run before candidate `i`. */
  ghost predicate Standing(
      env: Env, origin: Db, db: Db, apply: bool, candidates: seq<Candidate>, worlds: seq<World>, done: set<Token>,
        i: nat)
    requires i <= |candidates| == |worlds|
  {
    && done == (if apply then origin.progress.Keys else {}) && Snapshots(origin, candidates)
    && UnderWay(env, origin, db, candidates, i, apply) && Settled(env, db, apply, candidates, worlds, done, i)
  }

  lemma PassOver(
      env: Env, origin: Db, db: Db, apply: bool, candidates: seq<Candidate>, worlds: seq<World>, done: set<Token>,
        i: nat)
    requires i < |candidates| == |worlds| && Standing(env, origin, db, apply, candidates, worlds, done, i)
    requires candidates[i].id in done
    ensures Standing(env, origin, db, apply, candidates, worlds, done, i + 1)
  {
    var rest := candidates[i..];
    assert rest[0] == candidates[i] && rest[1..] == candidates[i + 1..];
    assert forall j :: 0 <= j < |rest[1..]| ==> rest[1..][j] == rest[j + 1];
  }

  lemma TakeOn(
      env: Env, origin: Db, db: Db, apply: bool, candidates: seq<Candidate>, worlds: seq<World>, done: set<Token>,
        i: nat)
    requires i < |candidates| == |worlds| && Standing(env, origin, db, apply, candidates, worlds, done, i)
    requires candidates[i].id !in done
    ensures Standing(env, origin, Process(env, db, candidates[i], apply, worlds[i]), apply, candidates, worlds, done,
      i + 1)
  {
    assert candidates[i..][0] == candidates[i];
    VisitSettles(env, db, apply, candidates, worlds, done, i);
    Visit(env, origin, db, candidates, i, apply, worlds[i]);
  }

  lemma AllKeepEvidence(env: Env, origin: Db, db: Db)
    requires Faithful(env) && Safe(env, origin, db)
    ensures forall id :: id in origin.rows && !Mixed(env, origin, id) ==>
      id in db.rows && Includes(Recoverable(env, db, id), Recoverable(env, origin, id))
  {
    forall id | id in origin.rows && !Mixed(env, origin, id)
      ensures id in db.rows && Includes(Recoverable(env, db, id), Recoverable(env, origin, id))
    {
      SafeKeepsEvidence(env, origin, db, id);
    }
  }

  /** The micro-steps one candidate goes through when nothing interrupts. */
  function Actions(env: Env, c: Candidate, apply: bool, w: World): seq<Action>
  {
    if !apply || !Passes(env, c, w.directoryExists) then [Examine(w.directoryExists)]
    else if w.replaced.None? then [Examine(true), WriteFails]
    else if Checks(env, w.replaced.value, Inline(env, c.cell))
      then [Examine(true), Replace(w.replaced.value), ReadBack, CommitRow]
    else [Examine(true), Replace(w.replaced.value), ReadBack]
  }

  /** The uninterrupted run takes only steps of the crash-tolerant machine. */
  lemma ProcessIsSteps(env: Env, db: Db, s: Session, w: World)
    requires s.queue != [] && s.phase.Idle? && s.queue[0].id !in s.done
    ensures Leads(Machine(env), State(db, Some(s)), Actions(env, s.queue[0], s.apply, w),
                  State(Process(env, db, s.queue[0], s.apply, w), Some(Next(s))))
  {
    var c, actions := s.queue[0], Actions(env, s.queue[0], s.apply, w);
    var st0 := State(db, Some(s));
    var end := State(Process(env, db, c, s.apply, w), Some(Next(s)));
    var st1 := Step(env, st0, actions[0]);
    if |actions| == 1 {
      assert st1 == end;
    } else if w.replaced.None? {
      assert actions[1..] == [WriteFails];
      assert Step(env, st1, WriteFails) == end;
    } else {
      WriteSteps(env, st1, c, w.replaced.value);
      assert actions[1..] == AfterExamine(env, c, w.replaced.value);
    }
  }

  function AfterExamine(env: Env, c: Candidate, bytes: Bytes): seq<Action>
  {
    [Replace(bytes), ReadBack] + if Checks(env, bytes, Inline(env, c.cell)) then [CommitRow] else []
  }

  lemma WriteSteps(env: Env, st1: State, c: Candidate, bytes: Bytes)
    requires At(st1, Writing) && st1.session.value.queue[0] == c && Inline(env, c.cell) != map[]
    ensures
      var after := st1.db.(artifacts := st1.db.artifacts[c.id := bytes]);
      var db := if Checks(env, bytes, Inline(env, c.cell)) then Commit(env, after, c, env.hash(bytes), |bytes|)
        else after;
      Leads(Machine(env), st1, AfterExamine(env, c, bytes), State(db, Some(Next(st1.session.value))))
  {
    var actions := AfterExamine(env, c, bytes);
    var st2 := Step(env, st1, Replace(bytes));
    var st3 := Step(env, st2, ReadBack);
    var rest := actions[1..];
    assert rest[0] == ReadBack;
    if Checks(env, bytes, Inline(env, c.cell)) {
      assert rest[1..] == [CommitRow];
      var st4 := Step(env, st3, CommitRow);
      assert Leads(Machine(env), st4, [], st4);
      assert Leads(Machine(env), st3, [CommitRow], st4);
    } else {
      assert rest[1..] == [];
      assert Leads(Machine(env), st3, [], st3);
    }
    assert Leads(Machine(env), st2, rest, if Checks(env, bytes, Inline(env, c.cell)) then Step(env, st3, CommitRow)
      else st3);
  }

  class Archive {
    var rows: map<Token, Cell>
    var artifacts: map<Token, Bytes>
    var progress: map<Token, Progress>

    constructor (db: Db)
      ensures Now() == db
    {
      rows, artifacts, progress := db.rows, db.artifacts, db.progress;
    }

    ghost function Now(): Db
      reads this
    {
      Db(rows, artifacts, progress)
    }

    /** Write the body, read it back: verified only when hash and length agree. */
    method WriteVerified(env: Env, id: Token, body: Record, replaced: Option<Bytes>) returns (r: Option<Progress>)
      modifies this`artifacts
      ensures artifacts == if replaced.Some? then old(artifacts)[id := replaced.value] else old(artifacts)
      ensures r.Some? <==> replaced.Some? && Checks(env, replaced.value, body)
      ensures r.Some? ==> r.value == Progress(env.hash(replaced.value), |replaced.value|)
    {
      var encoded := env.encode(body);
      var wanted := env.hash(encoded);
      if replaced.None? { return None; }
      artifacts := artifacts[id := replaced.value];
      var written := artifacts[id];
      var actual := env.hash(written);
      if actual != wanted || |written| != |encoded| { return None; }
      return Some(Progress(actual, |written|));
    }

    method ProcessCandidate(env: Env, c: Candidate, apply: bool, w: World) returns (verdict: Verdict)
      modifies this
      ensures Now() == Process(env, old(Now()), c, apply, w)
      ensures verdict == Judge(env, c, apply, w)
    {
      if !c.cell.Json? || !c.cell.value.Object? { return Skipped; }
      var m := c.cell.value.fields;
      var parts := CompactResult(env.tools, m);
      if parts.body == map[] { return AlreadyCompact; }
      if !w.directoryExists { return Skipped; }
      var before, after := env.project(c.id, m), env.project(c.id, parts.compact);
      if before.None? || after.None? || before != after { return Failed; }
      if !apply { return Done; }
      var r := WriteVerified(env, c.id, parts.body, w.replaced);
      if r.None? { return Failed; }
      var row := Object(parts.compact[EvidenceRef := RefValue(env, parts.body, r.value.digest, r.value.size)]);
      if c.id in rows && rows[c.id] == c.cell {
        rows := rows[c.id := Json(row)];
      }
      progress := progress[c.id := r.value];
      return Done;
    }

    /** The loop over the candidates, with the ids already done. */
    method Walk(env: Env, apply: bool, candidates: seq<Candidate>, worlds: seq<World>, limit: Option<nat>,
        done: set<Token>, ghost origin: Db)
      returns (examined: nat, migrated: nat, failures: seq<Token>, ghost reached: nat)
      requires |worlds| == |candidates| && Standing(env, origin, Now(), apply, candidates, worlds, done, 0)
      modifies this
      ensures reached <= |candidates| && Standing(env, origin, Now(), apply, candidates, worlds, done, reached)
      ensures Tally(examined, migrated, failures) == TallyOf(env, apply, candidates, worlds, done, reached)
      ensures limit.Some? ==> examined <= limit.value
      ensures reached < |candidates| ==> limit == Some(examined) && candidates[reached].id !in done
    {
      examined, migrated, failures, reached := 0, 0, [], 0;
      for i := 0 to |candidates|
        invariant Standing(env, origin, Now(), apply, candidates, worlds, done, i)
        invariant Tally(examined, migrated, failures) == TallyOf(env, apply, candidates, worlds, done, i)
        invariant reached == i && (limit.Some? ==> examined <= limit.value)
      {
        var c := candidates[i];
        TallyNext(env, apply, candidates, worlds, done, i);
        if c.id in done {
          PassOver(env, origin, Now(), apply, candidates, worlds, done, i);
          reached := i + 1;
          continue;
        }
        if limit.Some? && examined >= limit.value { break; }
        TakeOn(env, origin, Now(), apply, candidates, worlds, done, i);
        reached := i + 1;
        var verdict := ProcessCandidate(env, c, apply, worlds[i]);
        examined, migrated, failures := NoteVerdict(examined, migrated, failures, verdict, c.id);
      }
    }

    /**
     The run over all candidates: every row stays safe, all evidence of rows that are not mixed can still
     be recovered, a run that does not apply changes nothing, and the summary counts exactly the candidates
     reached: those before the limit that were not done already.
     */
    method RunBackfill(env: Env, apply: bool, candidates: seq<Candidate>, worlds: seq<World>, limit: Option<nat>)
      returns (examined: nat, migrated: nat, failures: seq<Token>, ghost reached: nat)
      requires |worlds| == |candidates| && Snapshots(Now(), candidates)
      modifies this
      ensures CollisionFree(env) ==> Safe(env, old(Now()), Now())
      ensures Faithful(env) ==> forall id :: id in old(rows) && !Mixed(env, old(Now()), id) ==>
        id in rows && Includes(Recoverable(env, Now(), id), Recoverable(env, old(Now()), id))
      ensures !apply ==> Now() == old(Now())
      ensures reached <= |candidates|
      ensures var done := if apply then old(progress).Keys else {};
        && Tally(examined, migrated, failures) == TallyOf(env, apply, candidates, worlds, done, reached)
        && Settled(env, Now(), apply, candidates, worlds, done, reached)
        && (reached < |candidates| ==> limit == Some(examined) && candidates[reached].id !in done)
      ensures limit.Some? ==> examined <= limit.value
      ensures rows.Keys == old(rows).Keys
      ensures forall id :: id in rows && rows[id] != old(rows)[id] ==> apply && id !in old(progress)
    {
      var done := if apply then progress.Keys else {};
      ghost var origin := Now();
      OriginIsSafe(env, origin);
      assert candidates[0..] == candidates;
      examined, migrated, failures, reached := Walk(env, apply, candidates, worlds, limit, done, origin);
      if Faithful(env) { AllKeepEvidence(env, origin, Now()); }
    }
  }

  /** The counters after one more verdict. */
  method NoteVerdict(examined: nat, migrated: nat, failures: seq<Token>, verdict: Verdict, id: Token)
    returns (examined': nat, migrated': nat, failures': seq<Token>)
    ensures Tally(examined', migrated', failures') == AddTo(Tally(examined, migrated, failures), verdict, id)
  {
    examined', migrated', failures' := examined + 1, migrated, failures;
    if verdict == Done { migrated' := migrated' + 1; }
    if verdict == Failed { failures' := failures' + [id]; }
  }
}
