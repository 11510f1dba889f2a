/**
 The evidence backfill: a run walks over candidate rows, moves the bulky body of each into an
 artifact, reads the artifact back, and only then rewrites the row. A run may stop at any point
 and be started again. One run is active at a time and nothing else writes the rows.
 */
module Backfill {
  import opened Basics
  import opened GitEvidence

  type Bytes = string

  /** JSON encoding and decoding, hashing, the sorted field list, and the public projection of a row. */
  datatype Env = Env(
    tools: Tools,
    encode: Record -> Bytes,
    decode: Bytes -> Option<Record>,
    hash: Bytes -> nat,
    names: set<Key> -> Value,
    project: (Token, Record) -> Option<Token>)

  /** What `result_json` holds. */
  datatype Cell = Unparsable(raw: string) | Json(value: Value)

  datatype Progress = Progress(digest: nat, size: nat)
  datatype Db = Db(rows: map<Token, Cell>, artifacts: map<Token, Bytes>, progress: map<Token, Progress>)

  // ------------------------------------------------------------ compacting one row

  datatype RowParts = RowParts(compact: Record, body: Record)

  function CompactResult(t: Tools, m: Record): RowParts
  {
    var commit := Get(m, CommitResult);
    if !commit.Object? then RowParts(m, map[])
    else
      var parts, preserved := Compact(t, commit, MAX_LISTED_PATHS), Get(m, Preserved);
      var body := WithPreserved(parts.body, preserved);
      if body == map[] then RowParts(m, map[])
      else RowParts(Rewritten(m, PathListValue(t, preserved, MAX_LISTED_PATHS), parts.compact), body)
  }

  function WithPreserved(body: Record, preserved: Value): Record
  {
    if preserved.Items? then body[Preserved := preserved] else body
  }

  function Rewritten(m: Record, listing: Value, commit: Value): Record
  {
    (if Get(m, Preserved).Items? then m[Preserved := listing] else m)[CommitResult := commit]
  }

  function RefValue(env: Env, body: Record, digest: nat, size: nat): Value
  {
    Object(map[RefFields := env.names(body.Keys), Sha256 := Number(digest), SizeBytes := Number(size)])
  }

  function Migrated(env: Env, m: Record, digest: nat, size: nat): Cell
  {
    var parts := CompactResult(env.tools, m);
    Json(Object(parts.compact[EvidenceRef := RefValue(env, parts.body, digest, size)]))
  }

  /** What a row still carries inline. */
  function Inline(env: Env, cell: Cell): Record
  {
    if cell.Json? && cell.value.Object? then CompactResult(env.tools, cell.value.fields).body else map[]
  }

  lemma PathListIsObject(t: Tools, v: Value, limit: nat)
    ensures PathListValue(t, v, limit).Object?
  {
  }

  /** A migrated row has nothing inline left, whatever it held before. */
  lemma MigratedIsEmpty(env: Env, m: Record, digest: nat, size: nat)
    requires CompactResult(env.tools, m).body != map[]
    ensures Inline(env, Migrated(env, m, digest, size)) == map[]
  {
    var commit := Get(m, CommitResult);
    var parts := Compact(env.tools, commit, MAX_LISTED_PATHS);
    var after := Migrated(env, m, digest, size).value.fields;
    assert Get(after, CommitResult) == parts.compact;
    CompactIdempotent(env.tools, commit, MAX_LISTED_PATHS, MAX_LISTED_PATHS);
    PathListIsObject(env.tools, Get(m, Preserved), MAX_LISTED_PATHS);
    assert !Get(after, Preserved).Items?;
  }

  lemma RefMeans(env: Env, body: Record, digest: nat, size: nat)
    ensures var ref := RefValue(env, body, digest, size);
      && ref.Object? && Get(ref.fields, Sha256) == Number(digest) && Get(ref.fields, SizeBytes) == Number(size)
      && Get(ref.fields, RefFields) == env.names(body.Keys)
  {
  }

  lemma RewrittenMeans(m: Record, listing: Value, commit: Value, ref: Value, k: Key)
    ensures var r := Rewritten(m, listing, commit)[EvidenceRef := ref];
      && Get(r, EvidenceRef) == ref && Get(r, CommitResult) == commit
      && (Get(m, Preserved).Items? ==> Get(r, Preserved) == listing)
      && (k != EvidenceRef && k != CommitResult && k != Preserved ==> Get(r, k) == Get(m, k))
  {
  }

  /** A migrated row names the hash, the size and the fields of its artifact; its own fields are the compacted ones. */
  lemma MigratedRefers(env: Env, m: Record, digest: nat, size: nat, k: Key)
    requires CompactResult(env.tools, m).body != map[]
    ensures var cell, body := Migrated(env, m, digest, size), CompactResult(env.tools, m).body;
      && cell.Json? && cell.value.Object?
      && var r, ref := cell.value.fields, Get(cell.value.fields, EvidenceRef);
      && ref.Object? && Get(ref.fields, Sha256) == Number(digest) && Get(ref.fields, SizeBytes) == Number(size)
      && Get(ref.fields, RefFields) == env.names(body.Keys)
      && Get(r, CommitResult) == Compact(env.tools, Get(m, CommitResult), 500).compact
      && (Get(m, Preserved).Items? ==> Get(r, Preserved) == PathListValue(env.tools, Get(m, Preserved), 500))
      && (k != EvidenceRef && k != CommitResult && k != Preserved ==> Get(r, k) == Get(m, k))
  {
    var t, body := env.tools, CompactResult(env.tools, m).body;
    RefMeans(env, body, digest, size);
    RewrittenMeans(m, PathListValue(t, Get(m, Preserved), MAX_LISTED_PATHS),
                   Compact(t, Get(m, CommitResult), MAX_LISTED_PATHS).compact, RefValue(env, body, digest, size), k);
  }

  /** Exactly when a row still carries something inline. */
  lemma InlineCondition(t: Tools, m: Record)
    ensures CompactResult(t, m).body != map[] <==>
      && Get(m, CommitResult).Object?
      && (Get(m, Preserved).Items?
          || (!Truthy(Get(Get(m, CommitResult).fields, Compacted)) && exists k ::
            k in Bulky && k in Get(m, CommitResult).fields))
  {
    var commit := Get(m, CommitResult);
    if commit.Object? {
      var body := Body(commit.fields, Bulky);
      assert forall k :: k in body <==> k in Bulky && k in commit.fields;
      if Get(m, Preserved).Items? {
        assert Preserved in CompactResult(t, m).body;
      }
      assert body != map[] <==> exists k :: k in body;
    }
  }

  // ------------------------------------------------------------ restoring a row

  /** Put an artifact's body back into the row that refers to it. */
  function RestoreRow(compact: Record, body: Record): Record
  {
    var bare := compact - {EvidenceRef};
    var commit := Restore(Parts(Get(compact, CommitResult), body - {Preserved}));
    var whole := bare[CommitResult := commit];
    if Preserved in body then whole[Preserved := body[Preserved]] else whole
  }

  ghost predicate NoMarker(commit: Record)
  {
    Truthy(Get(commit, Compacted)) || commit.Keys !! Added(Body(commit, Bulky))
  }

  lemma RewrittenRestores(m: Record, listing: Value, commit: Value, ref: Value, body: Record)
    requires Preserved !in body && CommitResult in m
    ensures RestoreRow(Rewritten(m, listing, commit)[EvidenceRef := ref], WithPreserved(body, Get(m, Preserved)))
            == (m - {EvidenceRef})[CommitResult := Restore(Parts(commit, body))]
  {
    var after, whole := Rewritten(m, listing, commit)[EvidenceRef := ref], WithPreserved(body, Get(m, Preserved));
    assert whole - {Preserved} == body;
    assert Get(after, CommitResult) == commit;
    var back, want := RestoreRow(after, whole), (m - {EvidenceRef})[CommitResult := Restore(Parts(commit, body))];
    assert Get(m, Preserved).Items? <==> Preserved in whole;
    assert forall k :: k in back <==> k in want;
    assert forall k :: k in want ==> back[k] == want[k];
  }

  lemma CommitBodyLeavesPreserved(t: Tools, commit: Value, limit: nat)
    ensures Preserved !in Compact(t, commit, limit).body
  {
    assert Preserved !in Bulky;
    assert commit.Object? ==> Preserved !in Body(commit.fields, Bulky);
  }

  lemma OverwriteIsSame(m: Record, value: Value)
    requires CommitResult in m
    ensures (m - {EvidenceRef})[CommitResult := value] == m <==> EvidenceRef !in m && value == m[CommitResult]
  {
    var other := (m - {EvidenceRef})[CommitResult := value];
    assert EvidenceRef !in other && other[CommitResult] == value;
    if EvidenceRef !in m && value == m[CommitResult] { assert m - {EvidenceRef} == m; }
  }

  /** A migrated row and its body give back the original row, exactly when it used no marker's name. */
  lemma RowIsRestoredIffNoMarker(env: Env, m: Record, digest: nat, size: nat)
    requires CompactResult(env.tools, m).body != map[]
    ensures RestoreRow(Migrated(env, m, digest, size).value.fields, CompactResult(env.tools, m).body) == m
            <==> EvidenceRef !in m && NoMarker(Get(m, CommitResult).fields)
  {
    var t, commit := env.tools, Get(m, CommitResult);
    var parts, body := Compact(t, commit, MAX_LISTED_PATHS), CompactResult(t, m).body;
    CommitBodyLeavesPreserved(t, commit, MAX_LISTED_PATHS);
    LosslessIffNoMarker(t, commit, MAX_LISTED_PATHS);
    var listing := PathListValue(t, Get(m, Preserved), MAX_LISTED_PATHS);
    RewrittenRestores(m, listing, parts.compact, RefValue(env, body, digest, size), parts.body);
    OverwriteIsSame(m, Restore(parts));
  }

  // ------------------------------------------------------------ the run as a state machine

  datatype Candidate = Candidate(id: Token, cell: Cell)
  datatype Phase = Idle | Writing | Written | Verified(digest: nat, size: nat)
  datatype Session = Session(apply: bool, done: set<Token>, queue: seq<Candidate>, phase: Phase)
  datatype State = State(db: Db, session: Option<Session>)

  datatype Action =
    | StartRun(apply: bool, ids: seq<Token>)
    | SkipDone
    | Examine(directoryExists: bool)
    | Replace(bytes: Bytes)
    | WriteFails
    | ReadBack
    | CommitRow
    | Stop

  /** The row passes every gate before the artifact is written. */
  predicate Passes(env: Env, c: Candidate, directoryExists: bool)
  {
    && Inline(env, c.cell) != map[]
    && directoryExists
    && var m := c.cell.value.fields;
       env.project(c.id, m).Some? && env.project(c.id, CompactResult(env.tools, m).compact) == env.project(c.id, m)
  }

  function Next(s: Session): Session
    requires s.queue != []
  {
    s.(queue := s.queue[1..], phase := Idle)
  }

  function StartSession(db: Db, apply: bool, ids: seq<Token>): Session
    requires forall i :: 0 <= i < |ids| ==> ids[i] in db.rows
  {
    Session(apply, if apply then db.progress.Keys else {},
            seq(|ids|, i requires 0 <= i < |ids| => Candidate(ids[i], db.rows[ids[i]])), Idle)
  }

  /** The bytes read back are the ones meant to be written, as far as hash and length tell. */
  predicate Checks(env: Env, written: Bytes, body: Record)
  {
    var encoded := env.encode(body);
    env.hash(written) == env.hash(encoded) && |written| == |encoded|
  }

  /** One transaction: the guarded row update and the progress record. */
  function Commit(env: Env, db: Db, c: Candidate, digest: nat, size: nat): Db
    requires Inline(env, c.cell) != map[]
  {
    var rows := if c.id in db.rows && db.rows[c.id] == c.cell
                then db.rows[c.id := Migrated(env, c.cell.value.fields, digest, size)] else db.rows;
    db.(rows := rows, progress := db.progress[c.id := Progress(digest, size)])
  }

  /** A candidate is at hand and the run is at this phase. */
  predicate At(st: State, phase: Phase)
  {
    st.session.Some? && st.session.value.queue != [] && st.session.value.phase == phase
  }

  predicate Enabled(env: Env, st: State, a: Action)
  {
    match a
    case StartRun(_, ids) =>
      && st.session.None?
      && (forall i :: 0 <= i < |ids| ==> ids[i] in st.db.rows)
      && (forall i, j :: 0 <= i < j < |ids| ==> ids[i] != ids[j])
    case SkipDone => At(st, Idle) && st.session.value.queue[0].id in st.session.value.done
    case Examine(_) => At(st, Idle) && st.session.value.queue[0].id !in st.session.value.done
    case Replace(_) => At(st, Writing)
    case WriteFails => At(st, Writing)
    case ReadBack => At(st, Written) && st.session.value.queue[0].id in st.db.artifacts
    case CommitRow =>
      && st.session.Some? && st.session.value.queue != [] && st.session.value.phase.Verified?
      && Inline(env, st.session.value.queue[0].cell) != map[]
    case Stop => st.session.Some?
  }

  function Step(env: Env, st: State, a: Action): State
    requires Enabled(env, st, a)
  {
    match a
    case StartRun(apply, ids) => st.(session := Some(StartSession(st.db, apply, ids)))
    case SkipDone => st.(session := Some(Next(st.session.value)))
    case Examine(exists_) =>
      var s := st.session.value;
      if Passes(env, s.queue[0], exists_) && s.apply then st.(session := Some(s.(phase := Writing)))
      else st.(session := Some(Next(s)))
    case Replace(bytes) =>
      var s := st.session.value;
      State(st.db.(artifacts := st.db.artifacts[s.queue[0].id := bytes]), Some(s.(phase := Written)))
    case WriteFails => st.(session := Some(Next(st.session.value)))
    case ReadBack =>
      var s := st.session.value;
      var written := st.db.artifacts[s.queue[0].id];
      if Checks(env, written, Inline(env, s.queue[0].cell)) then
        st.(session := Some(s.(phase := Verified(env.hash(written), |written|))))
      else st.(session := Some(Next(s)))
    case CommitRow =>
      var s := st.session.value;
      State(Commit(env, st.db, s.queue[0], s.phase.digest, s.phase.size), Some(Next(s)))
    case Stop => st.(session := None)
  }

  /** Where an action leads, if it is enabled. */
  ghost function Machine(env: Env): (State, Action) -> Option<State>
  {
    (st, a) => if Enabled(env, st, a) then Some(Step(env, st, a)) else None
  }

  // ------------------------------------------------------------ safety

  ghost predicate CollisionFree(env: Env)
  {
    forall a, b :: env.hash(a) == env.hash(b) && |a| == |b| ==> a == b
  }

  ghost predicate SameArtifact(a: Db, b: Db, id: Token)
  {
    (id in a.artifacts <==> id in b.artifacts) && (id in a.artifacts ==> a.artifacts[id] == b.artifacts[id])
  }

  /** The row is compact and its artifact holds the complete body under the recorded hash. */
  ghost predicate Moved(env: Env, origin: Db, db: Db, id: Token)
    requires id in origin.rows && id in db.rows
  {
    var body := Inline(env, origin.rows[id]);
    && body != map[]
    && id in db.artifacts && db.artifacts[id] == env.encode(body)
    && db.rows[id] == Migrated(env, origin.rows[id].value.fields, env.hash(db.artifacts[id]), |db.artifacts[id]|)
  }

  /** The row is as it was, its artifact too if nothing is inline, or its inline body is complete in its artifact. */
  ghost predicate RowSafe(env: Env, origin: Db, db: Db, id: Token)
    requires id in origin.rows && id in db.rows
  {
    || Moved(env, origin, db, id)
    || (db.rows[id] == origin.rows[id] && (Inline(env, origin.rows[id]) == map[] ==> SameArtifact(origin, db, id)))
  }

  ghost predicate Safe(env: Env, origin: Db, db: Db)
  {
    && db.rows.Keys == origin.rows.Keys
    && forall id :: id in db.rows ==> RowSafe(env, origin, db, id)
  }

  /** The session's snapshots are current and the candidate in progress is inline. */
  ghost predicate SessionOk(env: Env, db: Db, s: Session)
  {
    && (forall i :: 0 <= i < |s.queue| ==> s.queue[i].id in db.rows && db.rows[s.queue[i].id] == s.queue[i].cell)
    && (forall i, j :: 0 <= i < j < |s.queue| ==> s.queue[i].id != s.queue[j].id)
    && (!s.phase.Idle? ==> s.queue != [] && Inline(env, s.queue[0].cell) != map[])
    && (s.phase.Written? ==> s.queue[0].id in db.artifacts)
    && (s.phase.Verified? ==>
          && s.queue[0].id in db.artifacts && db.artifacts[s.queue[0].id] == env.encode(Inline(env, s.queue[0].cell))
          && s.phase.digest == env.hash(db.artifacts[s.queue[0].id]) && s.phase.size == |db.artifacts[s.queue[0].id]|)
  }

  ghost predicate Inv(env: Env, origin: Db, st: State)
  {
    Safe(env, origin, st.db) && (st.session.Some? ==> SessionOk(env, st.db, st.session.value))
  }

  /** A row that still carries something inline has never been touched. */
  lemma InlineIsOriginal(env: Env, origin: Db, db: Db, id: Token)
    requires Safe(env, origin, db) && id in db.rows && Inline(env, db.rows[id]) != map[]
    ensures db.rows[id] == origin.rows[id]
  {
    assert RowSafe(env, origin, db, id);
    var cell := origin.rows[id];
    if Inline(env, cell) != map[] {
      forall digest, size ensures Inline(env, Migrated(env, cell.value.fields, digest, size)) == map[] {
        MigratedIsEmpty(env, cell.value.fields, digest, size);
      }
    }
  }

  lemma ReplaceKeeps(env: Env, origin: Db, db: Db, id: Token, bytes: Bytes)
    requires Safe(env, origin, db) && id in db.rows && Inline(env, db.rows[id]) != map[]
    ensures Safe(env, origin, db.(artifacts := db.artifacts[id := bytes]))
  {
    InlineIsOriginal(env, origin, db, id);
    var now := db.(artifacts := db.artifacts[id := bytes]);
    forall k | k in now.rows ensures RowSafe(env, origin, now, k) {
      assert RowSafe(env, origin, db, k);
    }
  }

  lemma CommitKeeps(env: Env, origin: Db, db: Db, c: Candidate, digest: nat, size: nat)
    requires Safe(env, origin, db) && c.id in db.rows && db.rows[c.id] == c.cell && Inline(env, c.cell) != map[]
    requires c.id in db.artifacts && db.artifacts[c.id] == env.encode(Inline(env, c.cell))
    requires digest == env.hash(db.artifacts[c.id]) && size == |db.artifacts[c.id]|
    ensures Safe(env, origin, Commit(env, db, c, digest, size))
  {
    InlineIsOriginal(env, origin, db, c.id);
    var now := Commit(env, db, c, digest, size);
    forall k | k in now.rows ensures RowSafe(env, origin, now, k) {
      assert RowSafe(env, origin, db, k);
    }
  }

  lemma NextOk(env: Env, db: Db, s: Session)
    requires SessionOk(env, db, s) && s.queue != []
    ensures SessionOk(env, db, Next(s))
  {
  }

  lemma StartKeeps(env: Env, db: Db, apply: bool, ids: seq<Token>)
    requires forall i :: 0 <= i < |ids| ==> ids[i] in db.rows
    requires forall i, j :: 0 <= i < j < |ids| ==> ids[i] != ids[j]
    ensures SessionOk(env, db, StartSession(db, apply, ids))
  {
  }

  lemma ReplaceOk(env: Env, db: Db, s: Session, bytes: Bytes)
    requires SessionOk(env, db, s) && s.queue != [] && s.phase.Writing?
    ensures SessionOk(env, db.(artifacts := db.artifacts[s.queue[0].id := bytes]), s.(phase := Written))
  {
  }

  lemma ReadBackOk(env: Env, db: Db, s: Session)
    requires CollisionFree(env) && SessionOk(env, db, s) && s.phase.Written?
    requires Checks(env, db.artifacts[s.queue[0].id], Inline(env, s.queue[0].cell))
    ensures SessionOk(env, db, s.(phase := Verified(env.hash(db.artifacts[s.queue[0].id]),
      |db.artifacts[s.queue[0].id]|)))
  {
    var written, encoded := db.artifacts[s.queue[0].id], env.encode(Inline(env, s.queue[0].cell));
    assert env.hash(written) == env.hash(encoded);
  }

  lemma CommitOk(env: Env, db: Db, s: Session)
    requires SessionOk(env, db, s) && s.phase.Verified? && s.queue != []
    ensures SessionOk(env, Commit(env, db, s.queue[0], s.phase.digest, s.phase.size), Next(s))
  {
    var id, next := s.queue[0].id, Next(s);
    forall i | 0 <= i < |next.queue| ensures next.queue[i] == s.queue[i + 1] && next.queue[i].id != id {}
  }

  lemma StepKeeps(env: Env, origin: Db, st: State, a: Action)
    requires CollisionFree(env) && Inv(env, origin, st) && Enabled(env, st, a)
    ensures Inv(env, origin, Step(env, st, a))
  {
    match a
    case StartRun(apply, ids) => StartKeeps(env, st.db, apply, ids);
    case SkipDone => NextOk(env, st.db, st.session.value);
    case Examine(_) => NextOk(env, st.db, st.session.value);
    case Replace(bytes) =>
      ReplaceKeeps(env, origin, st.db, st.session.value.queue[0].id, bytes);
      ReplaceOk(env, st.db, st.session.value, bytes);
    case WriteFails => NextOk(env, st.db, st.session.value);
    case ReadBack =>
      var s := st.session.value;
      NextOk(env, st.db, s);
      if Checks(env, st.db.artifacts[s.queue[0].id], Inline(env, s.queue[0].cell)) { ReadBackOk(env, st.db, s); }
    case CommitRow =>
      var s := st.session.value;
      CommitKeeps(env, origin, st.db, s.queue[0], s.phase.digest, s.phase.size);
      CommitOk(env, st.db, s);
    case Stop =>
  }

  lemma OriginIsSafe(env: Env, db: Db)
    ensures Safe(env, db, db)
  {
    forall id | id in db.rows ensures RowSafe(env, db, db, id) {}
  }

  ghost predicate IsRun(env: Env, states: seq<State>, actions: seq<Action>)
  {
    && |states| == |actions| + 1
    && forall i :: 0 <= i < |actions| ==>
      Enabled(env, states[i], actions[i]) && states[i + 1] == Step(env, states[i], actions[i])
  }

  /**
   At every point of every run, with any stops and restarts, every row is as it was or what it
   carried inline is complete in its artifact under the hash the row records.
   */
  lemma {:induction false} RunKeepsInvariant(env: Env, states: seq<State>, actions: seq<Action>, n: nat)
    requires CollisionFree(env) && IsRun(env, states, actions) && n < |states| && states[0].session.None?
    ensures Inv(env, states[0].db, states[n])
  {
    if n == 0 {
      OriginIsSafe(env, states[0].db);
    } else {
      RunKeepsInvariant(env, states, actions, n - 1);
      StepKeeps(env, states[0].db, states[n - 1], actions[n - 1]);
    }
  }

  lemma EmptyRowStays(env: Env, st: State, a: Action, id: Token)
    requires st.session.Some? ==> SessionOk(env, st.db, st.session.value)
    requires Enabled(env, st, a) && id in st.db.rows && Inline(env, st.db.rows[id]) == map[]
    ensures id in Step(env, st, a).db.rows && Step(env, st, a).db.rows[id] == st.db.rows[id]
    ensures SameArtifact(st.db, Step(env, st, a).db, id)
  {
  }

  lemma RunSessionOk(env: Env, states: seq<State>, actions: seq<Action>, n: nat)
    requires CollisionFree(env) && IsRun(env, states, actions) && n < |states| && states[0].session.None?
    ensures states[n].session.Some? ==> SessionOk(env, states[n].db, states[n].session.value)
  {
    RunKeepsInvariant(env, states, actions, n);
  }

  /** A row with nothing inline, migrated or compact from the start, is never externalized again. */
  lemma {:induction false} CompactRowIsFinal(env: Env, states: seq<State>, actions: seq<Action>, m: nat, n: nat,
    id: Token)
    requires CollisionFree(env) && IsRun(env, states, actions) && m <= n < |states| && states[0].session.None?
    requires id in states[m].db.rows && Inline(env, states[m].db.rows[id]) == map[]
    ensures id in states[n].db.rows && states[n].db.rows[id] == states[m].db.rows[id]
    ensures SameArtifact(states[m].db, states[n].db, id)
  {
    if m < n {
      CompactRowIsFinal(env, states, actions, m, n - 1, id);
      RunSessionOk(env, states, actions, n - 1);
      EmptyRowStays(env, states[n - 1], actions[n - 1], id);
    }
  }
}
