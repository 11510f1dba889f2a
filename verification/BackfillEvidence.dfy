/**
 What a reader can recover of a row's evidence, from the row itself and from its artifact, and which
 rows the backfill can cost evidence: those that have some of it inline and some only in the artifact.
 */
module BackfillEvidence {
  import opened Basics
  import opened GitEvidence
  import opened Backfill

  /** The record an artifact holds; nothing if it is missing or unreadable. */
  function Stored(env: Env, db: Db, id: Token): Record
  {
    if id in db.artifacts && env.decode(db.artifacts[id]).Some? then env.decode(db.artifacts[id]).value else map[]
  }

  /** The row holds only a summary of this field: the field itself is in the artifact, or nowhere. */
  predicate MovedOut(cell: Cell, k: Key)
  {
    && cell.Json? && cell.value.Object?
    && var commit, preserved := Get(cell.value.fields, CommitResult), Get(cell.value.fields, Preserved);
    || (k in Bulky && commit.Object? && Truthy(Get(commit.fields, Compacted)))
    || (k == Preserved && preserved.Object?)
  }

  /** The evidence that row and artifact give together. */
  function Recoverable(env: Env, db: Db, id: Token): Record
    requires id in db.rows
  {
    var stored := Stored(env, db, id);
    (map k | k in stored && MovedOut(db.rows[id], k) :: stored[k]) + Inline(env, db.rows[id])
  }

  ghost predicate Includes(a: Record, b: Record)
  {
    forall k :: k in b ==> k in a && a[k] == b[k]
  }

  /** Hashes do not collide and what is encoded can be decoded. */
  ghost predicate Faithful(env: Env)
  {
    CollisionFree(env) && forall body :: env.decode(env.encode(body)) == Some(body)
  }

  /** Part of the evidence is inline and part of it only in the artifact. */
  ghost predicate Mixed(env: Env, db: Db, id: Token)
    requires id in db.rows
  {
    && Inline(env, db.rows[id]) != map[]
    && exists k :: k in Stored(env, db, id) && MovedOut(db.rows[id], k)
  }

  /** A mixed row that the backfill will take on: not recorded as done, and through the projection gate. */
  ghost predicate AtRisk(env: Env, db: Db, id: Token)
    requires id in db.rows
  {
    Mixed(env, db, id) && id !in db.progress && Passes(env, Candidate(id, db.rows[id]), true)
  }

  // ------------------------------------------------------------ rows that are not mixed

  /** What is inline is not moved out. */
  lemma InlineIsNotMovedOut(env: Env, cell: Cell, k: Key)
    requires k in Inline(env, cell)
    ensures !MovedOut(cell, k)
  {
    var m := cell.value.fields;
    CommitBodyLeavesPreserved(env.tools, Get(m, CommitResult), MAX_LISTED_PATHS);
    assert k == Preserved ==> Get(m, Preserved).Items?;
    assert k != Preserved ==> k in Compact(env.tools, Get(m, CommitResult), MAX_LISTED_PATHS).body;
  }

  /** Migration leaves every field it took out marked as moved out. */
  lemma MigratedMovesOut(env: Env, m: Record, digest: nat, size: nat, k: Key)
    requires k in CompactResult(env.tools, m).body
    ensures MovedOut(Migrated(env, m, digest, size), k)
  {
    var after := Migrated(env, m, digest, size).value.fields;
    var parts := Compact(env.tools, Get(m, CommitResult), MAX_LISTED_PATHS);
    PathListIsObject(env.tools, Get(m, Preserved), MAX_LISTED_PATHS);
    CommitBodyLeavesPreserved(env.tools, Get(m, CommitResult), MAX_LISTED_PATHS);
    assert CompactResult(env.tools, m).body != map[];
    assert Get(after, CommitResult) == parts.compact;
    if k == Preserved {
      assert Get(after, Preserved).Object?;
    } else {
      assert k in parts.body;
      MovedBodyIsMarked(env.tools, Get(m, CommitResult), k);
    }
  }

  lemma MovedBodyIsMarked(t: Tools, v: Value, k: Key)
    requires k in Compact(t, v, MAX_LISTED_PATHS).body
    ensures var c := Compact(t, v, MAX_LISTED_PATHS).compact;
      k in Bulky && c.Object? && Truthy(Get(c.fields, Compacted))
  {
    var c := Compact(t, v, MAX_LISTED_PATHS).compact;
    assert Get(c.fields, Compacted) == Flag(true);
  }

  lemma NotMixedIsInline(env: Env, db: Db, id: Token)
    requires id in db.rows && Inline(env, db.rows[id]) != map[] && !Mixed(env, db, id)
    ensures Recoverable(env, db, id) == Inline(env, db.rows[id])
  {
    var stored := Stored(env, db, id);
    assert forall k :: k in stored ==> !MovedOut(db.rows[id], k);
  }

  lemma InlineIsRecoverable(env: Env, db: Db, id: Token)
    requires id in db.rows
    ensures Includes(Recoverable(env, db, id), Inline(env, db.rows[id]))
  {
  }

  lemma StoredIsRecoverable(env: Env, db: Db, id: Token, body: Record)
    requires id in db.rows && Stored(env, db, id) == body && Inline(env, db.rows[id]) == map[]
    requires forall k :: k in body ==> MovedOut(db.rows[id], k)
    ensures Includes(Recoverable(env, db, id), body)
  {
  }

  lemma MovedStoresBody(env: Env, origin: Db, db: Db, id: Token)
    requires Faithful(env) && id in origin.rows && id in db.rows && Moved(env, origin, db, id)
    ensures Stored(env, db, id) == Inline(env, origin.rows[id]) && Inline(env, db.rows[id]) == map[]
    ensures forall k :: k in Inline(env, origin.rows[id]) ==> MovedOut(db.rows[id], k)
  {
    var m, bytes := origin.rows[id].value.fields, db.artifacts[id];
    var digest, size := env.hash(bytes), |bytes|;
    MigratedIsEmpty(env, m, digest, size);
    forall k | k in Inline(env, origin.rows[id]) ensures MovedOut(db.rows[id], k) {
      MigratedMovesOut(env, m, digest, size, k);
    }
  }

  /** The invariant of the backfill keeps all evidence of a row that is not mixed. */
  lemma SafeKeepsEvidence(env: Env, origin: Db, db: Db, id: Token)
    requires Faithful(env) && Safe(env, origin, db) && id in origin.rows && !Mixed(env, origin, id)
    ensures id in db.rows && Includes(Recoverable(env, db, id), Recoverable(env, origin, id))
  {
    assert RowSafe(env, origin, db, id);
    if Inline(env, origin.rows[id]) == map[] {
      SameEvidence(env, origin, db, id);
    } else {
      NotMixedIsInline(env, origin, id);
      if Moved(env, origin, db, id) {
        MovedStoresBody(env, origin, db, id);
        StoredIsRecoverable(env, db, id, Inline(env, origin.rows[id]));
      } else {
        InlineIsRecoverable(env, db, id);
      }
    }
  }

  lemma SameEvidence(env: Env, a: Db, b: Db, id: Token)
    requires id in a.rows && id in b.rows && a.rows[id] == b.rows[id] && SameArtifact(a, b, id)
    ensures Includes(Recoverable(env, b, id), Recoverable(env, a, id))
  {
    assert Stored(env, a, id) == Stored(env, b, id);
  }

  // ------------------------------------------------------------ mixed rows that are never taken on

  /** The row and its artifact have not been touched and never will be. */
  ghost predicate LeftAlone(env: Env, origin: Db, st: State, id: Token)
    requires id in origin.rows
  {
    && id in st.db.rows && st.db.rows[id] == origin.rows[id] && SameArtifact(origin, st.db, id)
    && (id in origin.progress ==> id in st.db.progress)
    && (st.session.Some? ==>
          && var s := st.session.value;
          && (s.apply && id in origin.progress ==> id in s.done)
          && (forall i :: 0 <= i < |s.queue| && s.queue[i].id == id ==> s.queue[i].cell == origin.rows[id])
          && (!s.phase.Idle? ==> s.queue != [] && s.queue[0].id != id))
  }

  lemma LeftAloneStays(env: Env, origin: Db, st: State, a: Action, id: Token)
    requires id in origin.rows && LeftAlone(env, origin, st, id) && Enabled(env, st, a)
    requires id in origin.progress || !Passes(env, Candidate(id, origin.rows[id]), true)
    ensures LeftAlone(env, origin, Step(env, st, a), id)
  {
    if a.Examine? {
      var c := st.session.value.queue[0];
      assert c.id == id ==> c == Candidate(id, origin.rows[id]);
    }
  }

  ghost predicate RunFrom(env: Env, origin: Db, states: seq<State>, actions: seq<Action>)
  {
    IsRun(env, states, actions) && states[0] == State(origin, None)
  }

  lemma {:induction false} RunLeavesAlone(env: Env, origin: Db, states: seq<State>, actions: seq<Action>, n: nat,
    id: Token)
    requires RunFrom(env, origin, states, actions) && n < |states| && id in origin.rows
    requires id in origin.progress || !Passes(env, Candidate(id, origin.rows[id]), true)
    ensures LeftAlone(env, origin, states[n], id)
  {
    if n > 0 {
      RunLeavesAlone(env, origin, states, actions, n - 1, id);
      LeftAloneStays(env, origin, states[n - 1], actions[n - 1], id);
    }
  }

  // ------------------------------------------------------------ crash safety

  /**
   Crash safety: at every point of every run, with any stops and restarts, all evidence of a row that
   is not at risk can still be recovered.
   */
  lemma NothingIsLost(env: Env, origin: Db, states: seq<State>, actions: seq<Action>, n: nat, id: Token)
    requires Faithful(env) && RunFrom(env, origin, states, actions) && n < |states|
    requires id in origin.rows && !AtRisk(env, origin, id)
    ensures id in states[n].db.rows && Includes(Recoverable(env, states[n].db, id), Recoverable(env, origin, id))
  {
    if Mixed(env, origin, id) {
      RunLeavesAlone(env, origin, states, actions, n, id);
      SameEvidence(env, origin, states[n].db, id);
    } else {
      RunKeepsInvariant(env, states, actions, n);
      SafeKeepsEvidence(env, origin, states[n].db, id);
    }
  }

  /** The steps that cost a row at risk what only its artifact held, with nothing going wrong. */
  function LosingActions(env: Env, origin: Db, id: Token): seq<Action>
    requires id in origin.rows
  {
    [StartRun(true, [id]), Examine(true), Replace(env.encode(Inline(env, origin.rows[id])))]
  }

  function LosingStates(env: Env, origin: Db, id: Token): seq<State>
    requires id in origin.rows
  {
    var bytes := env.encode(Inline(env, origin.rows[id]));
    var s := Session(true, origin.progress.Keys, [Candidate(id, origin.rows[id])], Idle);
    [State(origin, None), State(origin, Some(s)), State(origin, Some(s.(phase := Writing))),
     State(origin.(artifacts := origin.artifacts[id := bytes]), Some(s.(phase := Written)))]
  }

  lemma LosingStart(env: Env, origin: Db, id: Token)
    requires id in origin.rows
    ensures var states, a := LosingStates(env, origin, id), StartRun(true, [id]);
      Enabled(env, states[0], a) && states[1] == Step(env, states[0], a)
  {
    assert StartSession(origin, true, [id]).queue == [Candidate(id, origin.rows[id])];
  }

  lemma ExamineLeads(env: Env, db: Db, s: Session)
    requires s.queue != [] && s.phase.Idle? && s.apply && s.queue[0].id !in s.done && Passes(env, s.queue[0], true)
    ensures Enabled(env, State(db, Some(s)), Examine(true))
    ensures Step(env, State(db, Some(s)), Examine(true)) == State(db, Some(s.(phase := Writing)))
  {
  }

  lemma ReplaceLeads(env: Env, db: Db, s: Session, bytes: Bytes)
    requires s.queue != [] && s.phase.Writing?
    ensures Enabled(env, State(db, Some(s)), Replace(bytes))
    ensures Step(env, State(db, Some(s)), Replace(bytes))
            == State(db.(artifacts := db.artifacts[s.queue[0].id := bytes]), Some(s.(phase := Written)))
  {
  }

  lemma Extend(env: Env, states: seq<State>, actions: seq<Action>, a: Action, next: State)
    requires IsRun(env, states, actions) && Enabled(env, states[|actions|], a)
      && next == Step(env, states[|actions|], a)
    ensures IsRun(env, states + [next], actions + [a])
  {
    var more, acts := states + [next], actions + [a];
    forall i | 0 <= i < |acts| ensures Enabled(env, more[i], acts[i]) && more[i + 1] == Step(env, more[i], acts[i]) {
      if i < |actions| { assert more[i] == states[i] && more[i + 1] == states[i + 1] && acts[i] == actions[i]; }
    }
  }

  lemma ThreeSteps(env: Env, s0: State, s1: State, s2: State, s3: State, a: Action, b: Action, c: Action)
    requires Enabled(env, s0, a) && s1 == Step(env, s0, a)
    requires Enabled(env, s1, b) && s2 == Step(env, s1, b)
    requires Enabled(env, s2, c) && s3 == Step(env, s2, c)
    ensures IsRun(env, [s0, s1, s2, s3], [a, b, c])
  {
    Extend(env, [s0], [], a, s1);
    Extend(env, [s0] + [s1], [] + [a], b, s2);
    Extend(env, [s0] + [s1] + [s2], [] + [a] + [b], c, s3);
    assert [s0] + [s1] + [s2] + [s3] == [s0, s1, s2, s3] && [] + [a] + [b] + [c] == [a, b, c];
  }

  lemma LosingExamine(env: Env, origin: Db, id: Token)
    requires id in origin.rows && id !in origin.progress && Passes(env, Candidate(id, origin.rows[id]), true)
    ensures var states := LosingStates(env, origin, id);
      Enabled(env, states[1], Examine(true)) && states[2] == Step(env, states[1], Examine(true))
  {
    ExamineLeads(env, origin, LosingStates(env, origin, id)[1].session.value);
  }

  lemma LosingReplace(env: Env, origin: Db, id: Token)
    requires id in origin.rows
    ensures var states, a := LosingStates(env, origin, id), Replace(env.encode(Inline(env, origin.rows[id])));
      Enabled(env, states[2], a) && states[3] == Step(env, states[2], a)
  {
    ReplaceLeads(env, origin, LosingStates(env, origin, id)[2].session.value, env.encode(Inline(env, origin.rows[id])));
  }

  lemma LosingRun(env: Env, origin: Db, id: Token)
    requires id in origin.rows && id !in origin.progress && Passes(env, Candidate(id, origin.rows[id]), true)
    ensures RunFrom(env, origin, LosingStates(env, origin, id), LosingActions(env, origin, id))
  {
    var states, actions := LosingStates(env, origin, id), LosingActions(env, origin, id);
    LosingStart(env, origin, id);
    LosingExamine(env, origin, id);
    LosingReplace(env, origin, id);
    ThreeSteps(env, states[0], states[1], states[2], states[3], actions[0], actions[1], actions[2]);
  }

  /**
   A row at risk loses evidence in a run in which every write succeeds: the artifact is rewritten with
   the inline part alone, and every field that only the artifact held is gone.
   */
  lemma MixedRowLosesEvidence(env: Env, origin: Db, id: Token)
    requires Faithful(env) && id in origin.rows && AtRisk(env, origin, id)
    ensures RunFrom(env, origin, LosingStates(env, origin, id), LosingActions(env, origin, id))
    ensures var now := LosingStates(env, origin, id)[3].db;
      && id in now.rows
      && (forall k :: k in Stored(env, origin, id) && MovedOut(origin.rows[id], k) ==>
            k in Recoverable(env, origin, id) && k !in Recoverable(env, now, id))
      && !Includes(Recoverable(env, now, id), Recoverable(env, origin, id))
  {
    LosingRun(env, origin, id);
    var now, body := LosingStates(env, origin, id)[3].db, Inline(env, origin.rows[id]);
    assert Stored(env, now, id) == body;
    forall k | k in Stored(env, origin, id) && MovedOut(origin.rows[id], k) ensures k !in body {
      if k in body { InlineIsNotMovedOut(env, origin.rows[id], k); }
    }
  }

  /** All evidence of a row survives every run if and only if the row is not at risk. */
  lemma EvidenceSurvivesIffNotAtRisk(env: Env, origin: Db, id: Token)
    requires Faithful(env) && id in origin.rows
    ensures (forall states: seq<State>, actions: seq<Action>, n: nat ::
      RunFrom(env, origin, states, actions) && n < |states| ==>
               id in states[n].db.rows && Includes(Recoverable(env, states[n].db, id), Recoverable(env, origin, id)))
            <==> !AtRisk(env, origin, id)
  {
    if AtRisk(env, origin, id) {
      MixedRowLosesEvidence(env, origin, id);
      var states, actions := LosingStates(env, origin, id), LosingActions(env, origin, id);
      assert RunFrom(env, origin, states, actions) && 3 < |states|;
    } else {
      forall states: seq<State>, actions: seq<Action>, n: nat | RunFrom(env, origin, states, actions) && n < |states|
        ensures id in states[n].db.rows && Includes(Recoverable(env, states[n].db, id), Recoverable(env, origin, id))
      {
        NothingIsLost(env, origin, states, actions, n, id);
      }
    }
  }

  /**
   Which rows are mixed: the commit result is compact beside an inline preserved list, or a commit
   result is inline beside a summary of the preserved list, and the artifact holds what is summarised.
   */
  lemma MixedCondition(env: Env, db: Db, id: Token)
    requires id in db.rows && db.rows[id].Json? && db.rows[id].value.Object?
    requires Get(db.rows[id].value.fields, CommitResult).Object?
    ensures
      var commit := Get(db.rows[id].value.fields, CommitResult).fields;
      var preserved, stored := Get(db.rows[id].value.fields, Preserved), Stored(env, db, id);
      Mixed(env, db, id) <==>
        || (Truthy(Get(commit, Compacted)) && preserved.Items? && exists k :: k in Bulky && k in stored)
        || (!Truthy(Get(commit, Compacted)) && preserved.Object? && Preserved in stored && exists k ::
          k in Bulky && k in commit)
  {
    InlineCondition(env.tools, db.rows[id].value.fields);
    assert Preserved !in Bulky;
  }
}
