/**
 Bounding a diff response: hunks are dropped from the end, in the flat list and by id in the files'
 own lists, then files from the end, until the response fits. The encoded size of a response is a
 parameter.
 */
module DiffTrimming {
  import opened Basics
  import GitDiff

  datatype Item = Item(id: Token, path: string, additions: nat, deletions: nat)
  datatype FileItem = FileItem(path: string, additions: nat, deletions: nat, hunks: seq<Item>)
  datatype Response = Response(files: seq<FileItem>, hunks: seq<Item>, truncated: bool)

  type Measure = Response -> nat

  function Without(items: seq<Item>, id: Token): seq<Item>
  {
    if items == [] then []
    else if items[0].id == id then Without(items[1..], id)
    else [items[0]] + Without(items[1..], id)
  }

  function FilesWithout(files: seq<FileItem>, id: Token): (r: seq<FileItem>)
    ensures |r| == |files|
    ensures forall i :: 0 <= i < |files| ==> r[i] == files[i].(hunks := Without(files[i].hunks, id))
  {
    if files == [] then []
    else [files[0].(hunks := Without(files[0].hunks, id))] + FilesWithout(files[1..], id)
  }

  /** One turn of the loop while something is left to drop. */
  function Trim(r: Response): Response
  {
    if r.hunks != [] then
      var n := |r.hunks| - 1;
      Response(FilesWithout(r.files, r.hunks[n].id), r.hunks[..n], true)
    else if r.files != [] then Response(r.files[..|r.files| - 1], [], true)
    else r.(truncated := true)
  }

  function Trimmed(r: Response, turns: nat): Response
  {
    if turns == 0 then r else Trim(Trimmed(r, turns - 1))
  }

  predicate Exhausted(r: Response) { r.hunks == [] && r.files == [] }

  /** The inner loop: every file's list is rebuilt without the removed id. */
  method RemoveFromFiles(files: seq<FileItem>, id: Token) returns (r: seq<FileItem>)
    ensures r == FilesWithout(files, id)
  {
    r := files;
    for i := 0 to |r|
      invariant |r| == |files|
      invariant forall j :: 0 <= j < i ==> r[j] == files[j].(hunks := Without(files[j].hunks, id))
      invariant forall j :: i <= j < |files| ==> r[j] == files[j]
    {
      r := r[i := r[i].(hunks := Without(r[i].hunks, id))];
    }
  }

  /** The loop's body: drop the last hunk, or the last file, or give up. */
  method TrimOnce(r0: Response) returns (r: Response, gaveUp: bool)
    ensures r == Trim(r0) && gaveUp == Exhausted(r0)
  {
    r, gaveUp := r0, false;
    if r.hunks != [] {
      var removed := r.hunks[|r.hunks| - 1];
      var files := RemoveFromFiles(r.files, removed.id);
      r := Response(files, r.hunks[..|r.hunks| - 1], r.truncated);
    } else if r.files != [] {
      r := r.(files := r.files[..|r.files| - 1]);
    } else {
      gaveUp := true;
    }
    r := r.(truncated := true);
  }

  /**
   The trimming loop stops at the first response in trimming order that fits; it gives up only with
   both lists empty.
   */
  method BoundedResult(r0: Response, size: Measure, budget: int, allowFull: bool)
    returns (r: Response, ghost turns: nat)
    ensures r == Trimmed(r0, turns)
    ensures allowFull ==> r == r0
    ensures !allowFull ==> size(r) <= budget || (Exhausted(r) && r.truncated)
    ensures !allowFull ==> forall k :: 0 <= k < turns ==> size(Trimmed(r0, k)) > budget
    ensures turns > 0 ==> r.truncated
  {
    r, turns := r0, 0;
    if allowFull { return; }
    while size(r) > budget
      invariant r == Trimmed(r0, turns)
      invariant forall k :: 0 <= k < turns ==> size(Trimmed(r0, k)) > budget
      invariant turns > 0 ==> r.truncated
      decreases |r.hunks| + |r.files|
    {
      var gaveUp;
      r, gaveUp := TrimOnce(r);
      turns := turns + 1;
      if gaveUp { break; }
    }
  }

  // ------------------------------------------------------------ agreement of the two lists

  function Hunks(files: seq<FileItem>): seq<Item>
  {
    if files == [] then [] else files[0].hunks + Hunks(files[1..])
  }

  /** The flat list is the files' lists one after the other. */
  ghost predicate Aligned(r: Response)
  {
    Hunks(r.files) == r.hunks
  }

  ghost predicate Distinct(items: seq<Item>)
  {
    forall i, j :: 0 <= i < j < |items| ==> items[i].id != items[j].id
  }

  lemma {:induction false} WithoutAppend(a: seq<Item>, b: seq<Item>, id: Token)
    ensures Without(a + b, id) == Without(a, id) + Without(b, id)
  {
    if a == [] {
      assert a + b == b;
    } else {
      assert (a + b)[1..] == a[1..] + b;
      WithoutAppend(a[1..], b, id);
    }
  }

  lemma {:induction false} HunksWithout(files: seq<FileItem>, id: Token)
    ensures Hunks(FilesWithout(files, id)) == Without(Hunks(files), id)
  {
    if files != [] {
      HunksWithout(files[1..], id);
      WithoutAppend(files[0].hunks, Hunks(files[1..]), id);
      assert FilesWithout(files, id)[1..] == FilesWithout(files[1..], id);
    }
  }

  lemma {:induction false} WithoutAbsent(items: seq<Item>, id: Token)
    requires forall i :: 0 <= i < |items| ==> items[i].id != id
    ensures Without(items, id) == items
  {
    if items != [] { WithoutAbsent(items[1..], id); }
  }

  lemma {:induction false} WithoutIsFree(items: seq<Item>, id: Token)
    ensures forall i :: 0 <= i < |Without(items, id)| ==> Without(items, id)[i].id != id
  {
    if items != [] { WithoutIsFree(items[1..], id); }
  }

  /** Removing by id what is last in a list of distinct ids removes exactly the last. */
  lemma {:induction false} WithoutLast(items: seq<Item>)
    requires items != [] && Distinct(items)
    ensures Without(items, items[|items| - 1].id) == items[..|items| - 1]
  {
    var n := |items| - 1;
    if n == 0 {
      assert items[1..] == [];
    } else {
      assert items[0].id != items[n].id;
      WithoutLast(items[1..]);
      assert [items[0]] + items[1..][..n - 1] == items[..n];
    }
  }

  lemma TrimKeepsAligned(r: Response)
    requires Aligned(r) && Distinct(r.hunks) && r.hunks != []
    ensures Aligned(Trim(r)) && Distinct(Trim(r).hunks)
  {
    HunksWithout(r.files, r.hunks[|r.hunks| - 1].id);
    WithoutLast(r.hunks);
  }

  /** While hunks remain, trimming keeps a prefix of the flat list, aligned with the files' lists. */
  lemma {:induction false} HunksStayAligned(r: Response, turns: nat)
    requires Aligned(r) && Distinct(r.hunks) && turns <= |r.hunks|
    ensures Trimmed(r, turns).hunks == r.hunks[..|r.hunks| - turns]
    ensures Aligned(Trimmed(r, turns)) && Distinct(Trimmed(r, turns).hunks)
  {
    if turns > 0 {
      HunksStayAligned(r, turns - 1);
      TrimKeepsAligned(Trimmed(r, turns - 1));
    }
  }

  ghost predicate IsPrefix(a: seq<Item>, b: seq<Item>)
  {
    |a| <= |b| && a == b[..|a|]
  }

  /** The same file, with some hunks dropped from the end. */
  ghost predicate Shortened(a: FileItem, b: FileItem)
  {
    a == b.(hunks := a.hunks) && IsPrefix(a.hunks, b.hunks)
  }

  lemma DistinctParts(a: seq<Item>, b: seq<Item>)
    requires Distinct(a + b)
    ensures Distinct(a) && Distinct(b)
    ensures b != [] ==> forall i :: 0 <= i < |a| ==> a[i].id != b[|b| - 1].id
  {
    var all := a + b;
    assert forall k :: 0 <= k < |a| ==> all[k] == a[k];
    assert forall k :: 0 <= k < |b| ==> all[|a| + k] == b[k];
  }

  /** Removing the last hunk of all shortens one file at its end and touches no other. */
  lemma {:induction false} LastFileShortens(files: seq<FileItem>, i: nat)
    requires Hunks(files) != [] && Distinct(Hunks(files)) && i < |files|
    ensures Shortened(FilesWithout(files, Hunks(files)[|Hunks(files)| - 1].id)[i], files[i])
  {
    var all, first, rest := Hunks(files), files[0].hunks, Hunks(files[1..]);
    DistinctParts(first, rest);
    if rest == [] {
      assert all == first;
      if i == 0 { WithoutLast(first); } else { EmptyFile(files[1..], i - 1); }
    } else {
      assert all[|all| - 1] == rest[|rest| - 1];
      if i == 0 { WithoutAbsent(first, rest[|rest| - 1].id); } else { LastFileShortens(files[1..], i - 1); }
    }
  }

  lemma {:induction false} EmptyFile(files: seq<FileItem>, i: nat)
    requires Hunks(files) == [] && i < |files|
    ensures files[i].hunks == []
  {
    if i > 0 { EmptyFile(files[1..], i - 1); }
  }

  lemma {:induction false} FilesAreShortened(r: Response, turns: nat)
    requires Aligned(r) && Distinct(r.hunks) && turns <= |r.hunks|
    ensures |Trimmed(r, turns).files| == |r.files|
    ensures forall i :: 0 <= i < |r.files| ==> Shortened(Trimmed(r, turns).files[i], r.files[i])
  {
    if turns > 0 {
      FilesAreShortened(r, turns - 1);
      HunksStayAligned(r, turns - 1);
      var before := Trimmed(r, turns - 1);
      forall i | 0 <= i < |r.files| ensures Shortened(Trimmed(r, turns).files[i], r.files[i]) {
        TrimShortens(before, i);
        ShortenedTwice(Trim(before).files[i], before.files[i], r.files[i]);
      }
    }
  }

  lemma TrimShortens(r: Response, i: nat)
    requires Aligned(r) && Distinct(r.hunks) && r.hunks != [] && i < |r.files|
    ensures |Trim(r).files| == |r.files| && Shortened(Trim(r).files[i], r.files[i])
  {
    LastFileShortens(r.files, i);
  }

  lemma ShortenedTwice(a: FileItem, b: FileItem, c: FileItem)
    requires Shortened(a, b) && Shortened(b, c)
    ensures Shortened(a, c)
  {
    assert c.hunks[..|b.hunks|][..|a.hunks|] == c.hunks[..|a.hunks|];
  }

  /** Once the hunks are gone, files go from the end, each with no hunk left. */
  lemma {:induction false} FilesGoFromTheEnd(r: Response, turns: nat)
    requires Aligned(r) && Distinct(r.hunks) && |r.hunks| <= turns <= |r.hunks| + |r.files|
    ensures Trimmed(r, turns).hunks == [] && |Trimmed(r, turns).files| == |r.files| - (turns - |r.hunks|)
    ensures forall i :: 0 <= i < |Trimmed(r, turns).files| ==> Trimmed(r, turns).files[i] == r.files[i].(hunks := [])
  {
    if turns == |r.hunks| {
      HunksStayAligned(r, turns);
      FilesAreShortened(r, turns);
      var now := Trimmed(r, turns);
      forall i | 0 <= i < |now.files| ensures now.files[i] == r.files[i].(hunks := []) { EmptyFile(now.files, i); }
    } else {
      FilesGoFromTheEnd(r, turns - 1);
    }
  }

  /**
   The two lists agree all through the trimming of the hunks if and only if no id repeats: with a
   repeated id the files lose a hunk that the flat list still shows.
   */
  lemma AlignedThroughoutIffDistinct(r: Response)
    requires Aligned(r)
    ensures (forall turns: nat :: turns <= |r.hunks| ==> Aligned(Trimmed(r, turns))) <==> Distinct(r.hunks)
  {
    if Distinct(r.hunks) {
      forall turns: nat | turns <= |r.hunks| ensures Aligned(Trimmed(r, turns)) { HunksStayAligned(r, turns); }
    } else {
      var i, j :| 0 <= i < j < |r.hunks| && r.hunks[i].id == r.hunks[j].id;
      RepeatMisaligns(r, i, j);
    }
  }

  lemma RepeatMisaligns(r: Response, i: nat, j: nat)
    requires i < j < |r.hunks| && r.hunks[i].id == r.hunks[j].id
    ensures !Aligned(Trimmed(r, |r.hunks| - j))
  {
    var before, after := Trimmed(r, |r.hunks| - j - 1), Trimmed(r, |r.hunks| - j);
    FlatIsPrefix(r, |r.hunks| - j - 1);
    assert before.hunks == r.hunks[..j + 1] && after == Trim(before);
    TrimMisaligns(before, i);
  }

  lemma TrimMisaligns(r: Response, i: nat)
    requires i < |r.hunks| - 1 && r.hunks[i].id == r.hunks[|r.hunks| - 1].id
    ensures !Aligned(Trim(r))
  {
    var id := r.hunks[|r.hunks| - 1].id;
    HunksWithout(r.files, id);
    WithoutIsFree(Hunks(r.files), id);
    assert Trim(r).hunks[i].id == id;
  }

  lemma {:induction false} FlatIsPrefix(r: Response, turns: nat)
    requires turns <= |r.hunks|
    ensures Trimmed(r, turns).hunks == r.hunks[..|r.hunks| - turns]
  {
    if turns > 0 { FlatIsPrefix(r, turns - 1); }
  }

  // ------------------------------------------------------------ what the parser hands over

  function ItemOf(h: GitDiff.Hunk): Item
  {
    Item(h.id, h.path, h.additions, h.deletions)
  }

  function ItemsOf(arena: seq<GitDiff.Hunk>, hunks: seq<nat>): seq<Item>
    requires forall i :: 0 <= i < |hunks| ==> hunks[i] < |arena|
  {
    seq(|hunks|, i requires 0 <= i < |hunks| => ItemOf(arena[hunks[i]]))
  }

  ghost predicate InRange(st: GitDiff.State)
  {
    forall f :: 0 <= f < |st.files| ==> forall i :: 0 <= i < |st.files[f].hunks| ==> st.files[f].hunks[i] < |st.arena|
  }

  /** The snapshot's two indexes, texts dropped. */
  ghost function Index(st: GitDiff.State): Response
    requires InRange(st)
  {
    Response(FileIndex(st.arena, st.files), seq(|st.arena|, i requires 0 <= i < |st.arena| => ItemOf(st.arena[i])),
      false)
  }

  ghost function FileIndex(arena: seq<GitDiff.Hunk>, files: seq<GitDiff.File>): seq<FileItem>
    requires InRange(GitDiff.State(arena, files, false))
  {
    if files == [] then []
    else
      var n := |files| - 1;
      assert forall f :: 0 <= f < n ==> files[..n][f] == files[f];
      FileIndex(arena, files[..n]) + [FileItem(files[n].path, files[n].additions, files[n].deletions,
        ItemsOf(arena, files[n].hunks))]
  }

  lemma {:induction false} HunksAppend(files: seq<FileItem>, f: FileItem)
    ensures Hunks(files + [f]) == Hunks(files) + f.hunks
  {
    if files == [] {
      assert [f][1..] == [];
    } else {
      HunksAppend(files[1..], f);
      assert (files + [f])[1..] == files[1..] + [f];
    }
  }

  lemma {:induction false} IndexHunks(arena: seq<GitDiff.Hunk>, files: seq<GitDiff.File>)
    requires InRange(GitDiff.State(arena, files, false))
    ensures forall i :: 0 <= i < |GitDiff.Positions(files)| ==> GitDiff.Positions(files)[i] < |arena|
    ensures Hunks(FileIndex(arena, files)) == ItemsOf(arena, GitDiff.Positions(files))
  {
    if files != [] {
      var n := |files| - 1;
      assert forall f :: 0 <= f < n ==> files[..n][f] == files[f];
      IndexHunks(arena, files[..n]);
      HunksAppend(FileIndex(arena, files[..n]), FileItem(files[n].path, files[n].additions, files[n].deletions,
        ItemsOf(arena, files[n].hunks)));
    }
  }

  /** Every parsed snapshot starts trimming with the two lists in agreement. */
  lemma ParsedIsAligned(rules: GitDiff.Rules, lines: seq<GitDiff.Line>)
    ensures InRange(GitDiff.Run(rules, lines)) && Aligned(Index(GitDiff.Run(rules, lines)))
  {
    GitDiff.FilesAgree(rules, lines);
    var st := GitDiff.Run(rules, lines);
    assert InRange(st) by {
      forall f | 0 <= f < |st.files| ensures forall i :: 0 <= i < |st.files[f].hunks| ==>
        st.files[f].hunks[i] < |st.arena| {
        assert GitDiff.FileAgrees(rules, st.arena, st.files[f]);
      }
    }
    IndexHunks(st.arena, st.files);
  }

  /**
   A parsed snapshot keeps its two lists in agreement all through trimming, if and only if no path has
   hunks in two file blocks.
   */
  lemma ParsedStaysAlignedIff(rules: GitDiff.Rules, lines: seq<GitDiff.Line>)
    requires GitDiff.CollisionFree(rules)
    ensures InRange(GitDiff.Run(rules, lines))
    ensures var r := Index(GitDiff.Run(rules, lines));
      (forall turns: nat :: turns <= |r.hunks| ==> Aligned(Trimmed(r, turns)))
      <==> !GitDiff.SamePathTwice(GitDiff.Run(rules, lines).files)
  {
    ParsedIsAligned(rules, lines);
    GitDiff.IdsAreDistinctIff(rules, lines);
    var st := GitDiff.Run(rules, lines);
    var r := Index(st);
    AlignedThroughoutIffDistinct(r);
    assert |r.hunks| == |st.arena| && forall i :: 0 <= i < |r.hunks| ==> r.hunks[i].id == st.arena[i].id;
    assert Distinct(r.hunks) <==> GitDiff.DistinctIds(st.arena);
  }

  /** A file that changes its type: after one turn the flat list shows a hunk that no file lists. */
  lemma TypeChangeBreaksAgreement(
      rules: GitDiff.Rules, d1: GitDiff.Line, h1: GitDiff.Line, d2: GitDiff.Line, h2: GitDiff.Line)
    requires GitDiff.IsFile(d1) && GitDiff.IsFile(d2) && GitDiff.IsMark(h1) && GitDiff.IsMark(h2)
    requires !GitDiff.IsFile(h1) && !GitDiff.IsFile(h2) && rules.header(h1) && rules.header(h2) && h1 != h2
    requires rules.pathOf(d1) == rules.pathOf(d2)
    ensures InRange(GitDiff.Run(rules, [d1, h1, d2, h2]))
    ensures var r := Index(GitDiff.Run(rules, [d1, h1, d2, h2]));
      |r.hunks| == 2 && Aligned(r) && !Aligned(Trimmed(r, 1))
  {
    GitDiff.TypeChangeRepeatsId(rules, d1, h1, d2, h2);
    ParsedIsAligned(rules, [d1, h1, d2, h2]);
    RepeatMisaligns(Index(GitDiff.Run(rules, [d1, h1, d2, h2])), 0, 1);
  }
}
