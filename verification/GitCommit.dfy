/**
 Committing chosen paths. HEAD, the real index, the temporary index and the worktree are maps from
 paths to contents; `git add` copies the worktree's state of the named paths into an index and fails
 when a name matches nothing. Which Git commands fail otherwise is a parameter.
 */
module GitCommit {
  import opened Basics
  import opened GitStatus

  type Content = nat
  type Tree = map<Path, Content>

  function Look(t: Tree, p: Path): Option<Content>
  {
    if p in t then Some(t[p]) else None
  }

  /** `git add -A -- paths`. */
  function AddAll(index: Tree, worktree: Tree, paths: set<Path>): (r: Tree)
    ensures forall p :: Look(r, p) == if p in paths then Look(worktree, p) else Look(index, p)
  {
    map p | p in index.Keys + worktree.Keys && (if p in paths then p in worktree else p in index) ::
      if p in paths then worktree[p] else index[p]
  }

  lemma SameTree(a: Tree, b: Tree)
    requires forall p :: Look(a, p) == Look(b, p)
    ensures a == b
  {
    forall p ensures p in a <==> p in b { assert Look(a, p) == Look(b, p); }
    forall p | p in a ensures a[p] == b[p] { assert Look(a, p) == Look(b, p); }
  }

  function TreeOf(head: Option<Tree>): Tree
  {
    if head.Some? then head.value else map[]
  }

  /** The Git commands that fail for reasons outside this model. */
  datatype Faults = Faults(readTree: bool, add: bool, diff: bool, commit: bool, revParse: bool, sync: bool,
    restore: bool)

  datatype Outcome =
    | NotRequired
    | Refused
    | Committed
    | Failed(hashKnown: bool)

  function ToSet(paths: seq<Path>): set<Path>
  {
    set p | p in paths
  }

  class Repository {
    var head: Option<Tree>
    var index: Tree
    var worktree: Tree

    constructor (head: Option<Tree>, index: Tree, worktree: Tree)
      ensures this.head == head && this.index == index && this.worktree == worktree
    {
      this.head, this.index, this.worktree := head, index, worktree;
    }

    /**
     `finalize_explicit_changes`: a successful commit moves HEAD on the staged paths only, leaves HEAD,
     index and worktree in agreement there, and leaves the real index alone everywhere else. Without
     outside faults and with something to commit, HEAD moves, and that is reported as a commit exactly
     when every staged path is in the real index or the worktree.
     */
    method FinalizeExplicit(entries: seq<Entry>, selected: set<Path>, faults: Faults)
      returns (o: Outcome, stage: seq<Path>)
      modifies this
      ensures worktree == old(worktree)
      ensures forall p :: p in stage <==> selected != {} && Selects(entries, selected, p)
      ensures o.NotRequired? || (o.Failed? && head == old(head)) ==> head == old(head) && index == old(index)
      ensures o.Committed? ==> head.Some? && head != old(head)
      ensures o.Committed? ==> forall p :: p in stage ==>
        Look(head.value, p) == Look(index, p) == Look(worktree, p)
      ensures o.Committed? ==> forall p :: p !in stage ==>
        Look(head.value, p) == Look(TreeOf(old(head)), p) && Look(index, p) == Look(old(index), p)
      ensures o.Failed? && head != old(head) ==>
        index == old(index) && head == Some(AddAll(TreeOf(old(head)), worktree, ToSet(stage)))
          && (faults.revParse || o.hashKnown)
      ensures !o.Refused?
      ensures NoFaults(faults) && HasChange(TreeOf(old(head)), worktree, stage) ==>
        && head == Some(AddAll(TreeOf(old(head)), worktree, ToSet(stage)))
        && o == if MatchesAll(old(index), worktree, stage) then Committed else Failed(true)
      ensures o.Committed? ==>
        NoFaults(faults) && HasChange(TreeOf(old(head)), worktree, stage) && MatchesAll(old(index), worktree, stage)
      ensures o.NotRequired? <==>
        || stage == []
        || (&& !faults.readTree && !faults.add && !faults.diff && MatchesAll(TreeOf(old(head)), worktree, stage)
            && AddAll(TreeOf(old(head)), worktree, ToSet(stage)) == TreeOf(old(head)))
    {
      stage := [];
      if selected == {} { return NotRequired, stage; }
      stage := FinalizeStagePaths(entries, selected);
      if stage == [] { return NotRequired, stage; }
      var paths := ToSet(stage);
      if faults.readTree { return Failed(false), stage; }
      var temporary := TreeOf(head);
      if faults.add || !MatchesAll(temporary, worktree, stage) { return Failed(false), stage; }
      temporary := AddAll(temporary, worktree, paths);
      if faults.diff { return Failed(false), stage; }
      if temporary == TreeOf(head) { return NotRequired, stage; }
      if faults.commit { return Failed(false), stage; }
      head := Some(temporary);
      if faults.revParse { return Failed(false), stage; }
      if faults.sync || !MatchesAll(index, worktree, stage) { return Failed(true), stage; }
      index := AddAll(index, worktree, paths);
      return Committed, stage;
    }

    /**
     `commit_selected_files`: the whole real index is committed after the selected paths are staged in
     it, behind the guard against unrelated staged files; a failure puts the index back. It commits
     exactly when it is not refused, no Git command fails, every selected path is in index or worktree,
     and there is something to commit.
     */
    method CommitSelected(entries: seq<Entry>, selected: seq<Path>, refuseUnrelated: bool, faults: Faults)
      returns (o: Outcome)
      modifies this
      ensures worktree == old(worktree)
      ensures o.Refused? <==>
        selected == [] || !AllChanged(entries, selected) || (refuseUnrelated && !GuardPasses(entries, ToSet(selected)))
      ensures o.Refused? ==> head == old(head) && index == old(index)
      ensures o.Failed? ==>
        index == old(index) || (faults.restore && index == AddAll(old(index), worktree, ToSet(selected)))
      ensures o.Failed? && !faults.revParse ==> head == old(head)
      ensures head != old(head) ==> head == Some(AddAll(old(index), worktree, ToSet(selected)))
      ensures o.Committed? ==> head == Some(index) && head != old(head)
      ensures !o.NotRequired?
      ensures o.Committed? <==>
        && !o.Refused? && !faults.add && !faults.commit && !faults.revParse
        && MatchesAll(old(index), worktree, selected)
        && AddAll(old(index), worktree, ToSet(selected)) != TreeOf(old(head))
      ensures o.Committed? ==> index == AddAll(old(index), worktree, ToSet(selected))
    {
      if selected == [] { return Refused; }
      if !AllChanged(entries, selected) { return Refused; }
      if refuseUnrelated && !GuardPasses(entries, ToSet(selected)) { return Refused; }
      var snapshot := index;
      if faults.add || !MatchesAll(index, worktree, selected) { return Failed(false); }
      index := AddAll(index, worktree, ToSet(selected));
      if faults.commit || index == TreeOf(head) {
        if !faults.restore { index := snapshot; }
        return Failed(false);
      }
      head := Some(index);
      if faults.revParse {
        if !faults.restore { index := snapshot; }
        return Failed(false);
      }
      return Committed;
    }
  }

  predicate NoFaults(f: Faults)
  {
    !f.readTree && !f.add && !f.diff && !f.commit && !f.revParse && !f.sync
  }

  /** Adding the paths to HEAD's tree goes through and changes it. */
  predicate HasChange(head: Tree, worktree: Tree, stage: seq<Path>)
  {
    MatchesAll(head, worktree, stage) && AddAll(head, worktree, ToSet(stage)) != head
  }

  predicate MatchesAll(index: Tree, worktree: Tree, paths: seq<Path>)
  {
    forall i :: 0 <= i < |paths| ==> paths[i] in index || paths[i] in worktree
  }

  predicate AllChanged(entries: seq<Entry>, selected: seq<Path>)
  {
    forall i :: 0 <= i < |selected| ==> selected[i] in Changed(entries)
  }

  function Changed(entries: seq<Entry>): set<Path>
  {
    set i | 0 <= i < |entries| :: entries[i].path
  }

  // ------------------------------------------------------------ the guard and staged renames

  const QUESTION: Byte := 63
  const EXCLAMATION: Byte := 33

  /** The entry reports a difference between HEAD and the index. */
  predicate Staged(e: Entry)
  {
    e.index != SPACE && !(e.index == QUESTION && e.worktree == QUESTION)
      && !(e.index == EXCLAMATION && e.worktree == EXCLAMATION)
  }

  /** No staged entry names a path outside the selection. A staged rename names its new path only. */
  predicate GuardPasses(entries: seq<Entry>, selected: set<Path>)
  {
    forall i :: 0 <= i < |entries| && Staged(entries[i]) ==> entries[i].path in selected
  }

  predicate StagedRename(e: Entry)
  {
    e.index == RENAMED && e.source.Some?
  }

  /** Every staged difference is reported, a staged rename reporting two of them in one entry. */
  ghost predicate ReportsIndex(entries: seq<Entry>, head: Tree, index: Tree)
  {
    && (forall p :: Look(head, p) != Look(index, p) ==>
          exists i :: 0 <= i < |entries| && Staged(entries[i])
                      && (entries[i].path == p || (StagedRename(entries[i]) && entries[i].source.value == p)))
    && (forall i :: 0 <= i < |entries| && StagedRename(entries[i]) ==>
          Look(head, entries[i].source.value) != Look(index, entries[i].source.value))
  }

  /** A staged rename into the selection whose old path is not selected. */
  ghost predicate RenameFromOutside(entries: seq<Entry>, selected: set<Path>)
  {
    exists i :: 0 <= i < |entries| && StagedRename(entries[i]) && entries[i].source.value !in selected
  }

  lemma OutsideDiffersIffRename(entries: seq<Entry>, head: Tree, index: Tree, selected: set<Path>)
    requires ReportsIndex(entries, head, index) && GuardPasses(entries, selected)
    ensures (exists p :: p !in selected && Look(head, p) != Look(index, p)) <==> RenameFromOutside(entries, selected)
  {
    if p :| p !in selected && Look(head, p) != Look(index, p) {
      var i :| 0 <= i < |entries| && Staged(entries[i])
               && (entries[i].path == p || (StagedRename(entries[i]) && entries[i].source.value == p));
      assert StagedRename(entries[i]) && entries[i].source.value !in selected;
    }
    if RenameFromOutside(entries, selected) {
      var i :| 0 <= i < |entries| && StagedRename(entries[i]) && entries[i].source.value !in selected;
      assert Look(head, entries[i].source.value) != Look(index, entries[i].source.value);
    }
  }

  lemma AddAllAgrees(head: Tree, index: Tree, worktree: Tree, selected: set<Path>)
    ensures AddAll(index, worktree, selected) == AddAll(head, worktree, selected) <==>
            forall p :: p !in selected ==> Look(head, p) == Look(index, p)
  {
    var a, b := AddAll(index, worktree, selected), AddAll(head, worktree, selected);
    if forall p :: p !in selected ==> Look(head, p) == Look(index, p) {
      SameTree(a, b);
    } else {
      var p :| p !in selected && Look(head, p) != Look(index, p);
      assert Look(a, p) != Look(b, p);
    }
  }

  /**
   When the guard lets a selection through, committing through the real index gives the tree that
   the isolated index gives for the same paths, exactly when no staged rename comes from outside.
   */
  lemma SelectedIsIsolatedIffNoRename(entries: seq<Entry>, head: Tree, index: Tree, worktree: Tree, selected: set<Path>)
    requires ReportsIndex(entries, head, index) && GuardPasses(entries, selected)
    ensures AddAll(index, worktree, selected) == AddAll(head, worktree, selected) <==>
      !RenameFromOutside(entries, selected)
  {
    OutsideDiffersIffRename(entries, head, index, selected);
    AddAllAgrees(head, index, worktree, selected);
  }

  /** A staged rename from `a` to `b` with only `b` selected: the guard passes and `a` vanishes from the commit. */
  lemma HiddenRenameSource(a: Path, b: Path, content: Content)
    requires a != b
    ensures
      var entries := [Entry(RENAMED, SPACE, b, Some(a))];
      var head: Tree, index: Tree := map[a := content], map[b := content];
      && ReportsIndex(entries, head, index) && GuardPasses(entries, {b})
      && a !in AddAll(index, index, {b}) && a in AddAll(head, index, {b})
  {
    var entries := [Entry(RENAMED, SPACE, b, Some(a))];
    var head: Tree, index: Tree := map[a := content], map[b := content];
    assert Staged(entries[0]) && StagedRename(entries[0]);
    forall p | Look(head, p) != Look(index, p) ensures entries[0].path == p || entries[0].source.value == p {}
    assert Look(AddAll(index, index, {b}), a) == None;
    assert Look(AddAll(head, index, {b}), a) == Some(content);
  }

  /**
   Finalizing a staged rename of `a` to `b`: HEAD moves to the renamed tree, and the call reports a
   failure all the same, because the old path matches nothing when the real index is synchronized.
   */
  method FinalizeStagedRename(a: Path, b: Path, content: Content)
    returns (o: Outcome, stage: seq<Path>, head: Option<Tree>)
    requires a != b && a != [] && b != []
    ensures o == Failed(true) && a in stage && b in stage
    ensures head == Some(map[b := content])
  {
    var entries := [Entry(RENAMED, SPACE, b, Some(a))];
    var none := Faults(false, false, false, false, false, false, false);
    var repository := new Repository(Some(map[a := content]), map[b := content], map[b := content]);
    o, stage := repository.FinalizeExplicit(entries, {b}, none);
    head := repository.head;
    assert Touched(entries[0], {b}) && EndOf(entries[0], a) && EndOf(entries[0], b);
    assert forall p :: p in stage <==> p == a || p == b;
    var before: Tree, after: Tree := map[a := content], map[b := content];
    var added := AddAll(before, after, ToSet(stage));
    forall p ensures Look(added, p) == Look(after, p) {}
    SameTree(added, after);
    assert a in before && a !in after;
    assert exists i :: 0 <= i < |stage| && stage[i] == a;
  }

  // ------------------------------------------------------------ the same paths through both operations

  /** Without touched renames or copies, finalizing a changed selection stages exactly the selection. */
  lemma StagesTheSelection(entries: seq<Entry>, selected: set<Path>, p: Path)
    requires [] !in selected && selected <= Changed(entries)
    requires forall i :: 0 <= i < |entries| && Touched(entries[i], selected) ==> entries[i].source.None?
    ensures Selects(entries, selected, p) <==> p in selected
  {
    if p in selected {
      var i :| 0 <= i < |entries| && entries[i].path == p;
      assert Touched(entries[i], selected) && EndOf(entries[i], p);
    }
    if Selects(entries, selected, p) {
      var i :| 0 <= i < |entries| && Touched(entries[i], selected) && EndOf(entries[i], p);
      assert entries[i].source.None? && entries[i].path == p;
    }
  }

  /** Nothing stands in the way of committing the selection, by either operation. */
  ghost predicate Committable(entries: seq<Entry>, selected: seq<Path>, head: Tree, index: Tree, worktree: Tree)
  {
    && selected != [] && AllChanged(entries, selected) && GuardPasses(entries, ToSet(selected))
    && MatchesAll(head, worktree, selected) && MatchesAll(index, worktree, selected)
    && AddAll(head, worktree, ToSet(selected)) != head
  }

  lemma SameStage(stage: seq<Path>, selected: seq<Path>, index: Tree, worktree: Tree)
    requires forall p :: p in stage <==> p in selected
    ensures ToSet(stage) == ToSet(selected)
    ensures MatchesAll(index, worktree, stage) <==> MatchesAll(index, worktree, selected)
  {
    if MatchesAll(index, worktree, selected) {
      forall i | 0 <= i < |stage| ensures stage[i] in index || stage[i] in worktree {
        assert stage[i] in selected;
      }
    }
    if MatchesAll(index, worktree, stage) {
      forall i | 0 <= i < |selected| ensures selected[i] in index || selected[i] in worktree {
        assert selected[i] in stage;
      }
    }
  }

  /**
   Both operations, started from the same repository on the same paths, commit the same tree; and with
   nothing in the way and no fault both do commit.
   */
  method CommitBothWays(entries: seq<Entry>, selected: seq<Path>, head: Option<Tree>, index: Tree, worktree: Tree,
    faultsA: Faults, faultsB: Faults)
    returns (isolated: Option<Tree>, direct: Option<Tree>, a: Outcome, b: Outcome)
    requires [] !in selected && ReportsIndex(entries, TreeOf(head), index)
    requires forall i :: 0 <= i < |entries| && Touched(entries[i], ToSet(selected)) ==> entries[i].source.None?
    ensures a.Committed? && b.Committed? ==> isolated == direct == Some(AddAll(TreeOf(head), worktree, ToSet(selected)))
    ensures Committable(entries, selected, TreeOf(head), index, worktree) && NoFaults(faultsA) && NoFaults(faultsB) ==>
      a.Committed? && b.Committed?
  {
    var one := new Repository(head, index, worktree);
    var two := new Repository(head, index, worktree);
    var stage: seq<Path>;
    a, stage := one.FinalizeExplicit(entries, ToSet(selected), faultsA);
    b := two.CommitSelected(entries, selected, true, faultsB);
    isolated, direct := one.head, two.head;
    if selected != [] && AllChanged(entries, selected) && GuardPasses(entries, ToSet(selected)) {
      StageIsSelection(entries, selected, stage);
      SameStage(stage, selected, TreeOf(head), worktree);
      SameStage(stage, selected, index, worktree);
      SelectionIsIsolated(entries, selected, TreeOf(head), index, worktree);
      if a.Committed? { SameTree(isolated.value, AddAll(TreeOf(head), worktree, ToSet(selected))); }
    }
  }

  lemma SelectionIsIsolated(entries: seq<Entry>, selected: seq<Path>, head: Tree, index: Tree, worktree: Tree)
    requires ReportsIndex(entries, head, index) && GuardPasses(entries, ToSet(selected))
    requires forall i :: 0 <= i < |entries| && Touched(entries[i], ToSet(selected)) ==> entries[i].source.None?
    ensures AddAll(index, worktree, ToSet(selected)) == AddAll(head, worktree, ToSet(selected))
  {
    assert forall i :: 0 <= i < |entries| && StagedRename(entries[i]) ==> Touched(entries[i], ToSet(selected));
    SelectedIsIsolatedIffNoRename(entries, head, index, worktree, ToSet(selected));
  }

  lemma StageIsSelection(entries: seq<Entry>, selected: seq<Path>, stage: seq<Path>)
    requires [] !in selected && selected != [] && AllChanged(entries, selected)
    requires forall i :: 0 <= i < |entries| && Touched(entries[i], ToSet(selected)) ==> entries[i].source.None?
    requires forall p :: p in stage <==> Selects(entries, ToSet(selected), p)
    ensures forall p :: p in stage <==> p in selected
  {
    forall p ensures p in stage <==> p in selected {
      StagesTheSelection(entries, ToSet(selected), p);
    }
  }
}
