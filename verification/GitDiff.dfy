/**
 The diff snapshot parser. A hunk object sits both in the flat list and in its file's list, so the
 flat list is kept as an arena of hunks and a file refers to its hunks by position in the arena.
 What the regular expressions and the hash answer for a line is a parameter.
 */
module GitDiff {
  import opened Basics

  type Line = string

  datatype Rules = Rules(header: Line -> bool, pathOf: Line -> string, idOf: (string, nat) -> Token)
  datatype Status = Modified | Added | Deleted
  datatype Hunk = Hunk(id: Token, path: string, additions: nat, deletions: nat, text: string)
  datatype File = File(path: string, status: Status, additions: nat, deletions: nat, hunks: seq<nat>)

  /** `open`: the last hunk of the arena is the current one. */
  datatype State = State(arena: seq<Hunk>, files: seq<File>, open: bool)

  predicate StartsWith(line: Line, prefix: string)
  {
    |prefix| <= |line| && line[..|prefix|] == prefix
  }

  predicate IsFile(line: Line) { StartsWith(line, "diff --git ") }

  predicate IsMark(line: Line) { StartsWith(line, "@@ ") }

  predicate Adds(line: Line) { StartsWith(line, "+") && !StartsWith(line, "+++") }

  predicate Removes(line: Line) { !Adds(line) && StartsWith(line, "-") && !StartsWith(line, "---") }

  function One(b: bool): nat { if b then 1 else 0 }

  // ------------------------------------------------------------ the parser

  function Last<T>(s: seq<T>): T
    requires s != []
  {
    s[|s| - 1]
  }

  function NewFile(rules: Rules, line: Line): File
  {
    File(rules.pathOf(line), Modified, 0, 0, [])
  }

  function NewHunk(rules: Rules, file: File, line: Line): Hunk
  {
    Hunk(rules.idOf(file.path, |file.hunks|), file.path, 0, 0, line)
  }

  function GrowHunk(h: Hunk, line: Line): Hunk
  {
    h.(text := h.text + line, additions := h.additions + One(Adds(line)), deletions := h.deletions + One(Removes(line)))
  }

  function GrowFile(f: File, line: Line): File
  {
    f.(additions := f.additions + One(Adds(line)), deletions := f.deletions + One(Removes(line)))
  }

  predicate Sound(st: State)
  {
    st.open ==> st.arena != [] && st.files != []
  }

  function Step(rules: Rules, st: State, line: Line): (r: State)
    requires Sound(st)
    ensures Sound(r)
  {
    if IsFile(line) then State(st.arena, st.files + [NewFile(rules, line)], false)
    else if IsMark(line) && st.files != [] then
      if !rules.header(line) then st
      else
        var n, file := |st.files| - 1, Last(st.files);
        State(st.arena + [NewHunk(rules, file, line)], st.files[n := file.(hunks := file.hunks + [|st.arena|])], true)
    else if st.open then
      State(st.arena[|st.arena| - 1 := GrowHunk(Last(st.arena), line)],
            st.files[|st.files| - 1 := GrowFile(Last(st.files), line)], true)
    else st
  }

  function Run(rules: Rules, lines: seq<Line>): (st: State)
    ensures Sound(st)
  {
    if lines == [] then State([], [], false) else Step(rules, Run(rules, lines[..|lines| - 1]), lines[|lines| - 1])
  }

  function StatusOf(f: File): Status
  {
    if f.additions > 0 && f.deletions == 0 then Added
    else if f.deletions > 0 && f.additions == 0 then Deleted
    else f.status
  }

  lemma {:induction false} StatusIsUnset(rules: Rules, lines: seq<Line>)
    ensures forall i :: 0 <= i < |Run(rules, lines).files| ==> Run(rules, lines).files[i].status.Modified?
  {
    if lines != [] { StatusIsUnset(rules, lines[..|lines| - 1]); }
  }

  /** The parser's loop, then the loop that settles each file's status. */
  method ParseSnapshot(rules: Rules, lines: seq<Line>) returns (files: seq<File>, hunks: seq<Hunk>)
    ensures hunks == Run(rules, lines).arena
    ensures |files| == |Run(rules, lines).files|
    ensures forall i :: 0 <= i < |files| ==>
      files[i] == Run(rules, lines).files[i].(status := StatusOf(Run(rules, lines).files[i]))
    ensures forall i :: 0 <= i < |files| ==>
      && (files[i].status.Added? <==> files[i].additions > 0 && files[i].deletions == 0)
      && (files[i].status.Deleted? <==> files[i].deletions > 0 && files[i].additions == 0)
  {
    StatusIsUnset(rules, lines);
    files, hunks := [], [];
    var open := false;
    for k := 0 to |lines|
      invariant State(hunks, files, open) == Run(rules, lines[..k])
    {
      assert lines[..k + 1][..k] == lines[..k];
      var line := lines[k];
      if IsFile(line) {
        files := files + [NewFile(rules, line)];
        open := false;
        continue;
      }
      if IsMark(line) && files != [] {
        if !rules.header(line) { continue; }
        var file := files[|files| - 1];
        hunks := hunks + [NewHunk(rules, file, line)];
        files := files[|files| - 1 := file.(hunks := file.hunks + [|hunks| - 1])];
        open := true;
        continue;
      }
      if open {
        var hunk, file := hunks[|hunks| - 1], files[|files| - 1];
        hunk := hunk.(text := hunk.text + line);
        if Adds(line) {
          hunk := hunk.(additions := hunk.additions + 1);
          file := file.(additions := file.additions + 1);
        } else if StartsWith(line, "-") && !StartsWith(line, "---") {
          hunk := hunk.(deletions := hunk.deletions + 1);
          file := file.(deletions := file.deletions + 1);
        }
        assert hunk == GrowHunk(hunks[|hunks| - 1], line) && file == GrowFile(files[|files| - 1], line);
        hunks, files := hunks[|hunks| - 1 := hunk], files[|files| - 1 := file];
      }
    }
    assert lines[..|lines|] == lines;
    ghost var parsed := files;
    for i := 0 to |files|
      invariant |files| == |parsed|
      invariant forall j :: 0 <= j < i ==> files[j] == parsed[j].(status := StatusOf(parsed[j]))
      invariant forall j :: i <= j < |files| ==> files[j] == parsed[j]
    {
      files := files[i := files[i].(status := StatusOf(files[i]))];
    }
  }

  // ------------------------------------------------------------ where each line belongs

  ghost predicate FileBefore(lines: seq<Line>, k: int)
  {
    exists j :: 0 <= j < k && j < |lines| && IsFile(lines[j])
  }

  /** A marked line after the first file line: it opens a hunk, or is dropped when malformed. */
  ghost predicate Marked(lines: seq<Line>, k: int)
    requires 0 <= k < |lines|
  {
    !IsFile(lines[k]) && IsMark(lines[k]) && FileBefore(lines, k)
  }

  ghost predicate Opens(rules: Rules, lines: seq<Line>, k: int)
    requires 0 <= k < |lines|
  {
    Marked(lines, k) && rules.header(lines[k])
  }

  ghost predicate Dropped(rules: Rules, lines: seq<Line>, k: int)
    requires 0 <= k < |lines|
  {
    Marked(lines, k) && !rules.header(lines[k])
  }

  /** A line at which the hunk that was open, if any, ends. */
  ghost predicate Boundary(rules: Rules, lines: seq<Line>, k: int)
    requires 0 <= k < |lines|
  {
    IsFile(lines[k]) || Opens(rules, lines, k)
  }

  /** Line `p` opens a hunk and nothing between `p` and `k` ends it. */
  ghost predicate Reaches(rules: Rules, lines: seq<Line>, p: int, k: int)
    requires 0 <= p <= k < |lines|
  {
    Opens(rules, lines, p) && forall j :: p < j <= k ==> !Boundary(rules, lines, j)
  }

  /** Line `k` belongs to the hunk opened at `p`. */
  ghost predicate Owns(rules: Rules, lines: seq<Line>, p: int, k: int)
    requires 0 <= p <= k < |lines|
  {
    Reaches(rules, lines, p, k) && !Dropped(rules, lines, k)
  }

  /** The lines of `lines[..n]` that belong to the hunk opened at `p`, in order. */
  ghost function Gather(rules: Rules, lines: seq<Line>, p: nat, n: nat): seq<Line>
    requires p < |lines| && n <= |lines|
  {
    if n <= p then []
    else Gather(rules, lines, p, n - 1) + (if Owns(rules, lines, p, n - 1) then [lines[n - 1]] else [])
  }

  /** The opening lines of `lines[..n]`, in order. */
  ghost function Starts(rules: Rules, lines: seq<Line>, n: nat): seq<nat>
    requires n <= |lines|
  {
    if n == 0 then []
    else Starts(rules, lines, n - 1) + (if Opens(rules, lines, n - 1) then [n - 1] else [])
  }

  function Flatten(lines: seq<Line>): string
  {
    if lines == [] then "" else Flatten(lines[..|lines| - 1]) + lines[|lines| - 1]
  }

  function Count(lines: seq<Line>, p: Line -> bool): nat
  {
    if lines == [] then 0 else Count(lines[..|lines| - 1], p) + One(p(lines[|lines| - 1]))
  }

  /** A hunk line never starts with a plus or a minus, so its opening line may be counted along. */
  ghost predicate IsHunkOf(h: Hunk, lines: seq<Line>)
  {
    h.text == Flatten(lines) && h.additions == Count(lines, Adds) && h.deletions == Count(lines, Removes)
  }

  lemma {:induction false} StartsAreOpenings(rules: Rules, lines: seq<Line>, n: nat)
    requires n <= |lines|
    ensures forall i :: 0 <= i < |Starts(rules, lines, n)| ==>
      Starts(rules, lines, n)[i] < n && Opens(rules, lines, Starts(rules, lines, n)[i])
    ensures forall k :: 0 <= k < n && Opens(rules, lines, k) ==> k in Starts(rules, lines, n)
    ensures forall i, j :: 0 <= i < j < |Starts(rules, lines, n)| ==>
      Starts(rules, lines, n)[i] < Starts(rules, lines, n)[j]
  {
    if n > 0 { StartsAreOpenings(rules, lines, n - 1); }
  }

  /** No line belongs to two hunks. */
  lemma OwnerIsUnique(rules: Rules, lines: seq<Line>, p: nat, q: nat, k: nat)
    requires p <= k < |lines| && q <= k && Owns(rules, lines, p, k) && Owns(rules, lines, q, k)
    ensures p == q
  {
    assert p < q ==> Boundary(rules, lines, q);
    assert q < p ==> Boundary(rules, lines, p);
  }

  lemma FlattenOne(line: Line)
    ensures Flatten([line]) == line
    ensures forall p: Line -> bool :: Count([line], p) == One(p(line))
  {
    assert [line][..0] == [];
    assert Flatten([]) == "";
    assert "" + line == line;
  }

  lemma GrowsHunk(h: Hunk, lines: seq<Line>, line: Line)
    requires IsHunkOf(h, lines)
    ensures IsHunkOf(GrowHunk(h, line), lines + [line])
  {
    assert (lines + [line])[..|lines|] == lines;
  }

  // ------------------------------------------------------------ the parser against the reference

  /** After `n` lines: which hunk is open, and every hunk against the lines it owns. */
  ghost predicate Tracks(rules: Rules, lines: seq<Line>, n: nat, st: State)
    requires n <= |lines|
  {
    var starts := Starts(rules, lines, n);
    && |st.arena| == |starts|
    && (st.files != [] <==> FileBefore(lines, n))
    && (st.open ==> starts != [])
    && (forall i :: 0 <= i < |starts| ==> starts[i] < n)
    && (forall i {:trigger starts[i]} :: 0 <= i < |starts| ==>
          (Reaches(rules, lines, starts[i], n - 1) <==> st.open && i == |starts| - 1))
    && (forall i :: 0 <= i < |starts| ==> IsHunkOf(st.arena[i], Gather(rules, lines, starts[i], n)))
  }

  lemma StartIsOwnHunk(rules: Rules, lines: seq<Line>, p: nat)
    requires p < |lines| && Opens(rules, lines, p)
    ensures Gather(rules, lines, p, p + 1) == [lines[p]]
  {
    assert Owns(rules, lines, p, p);
    assert Gather(rules, lines, p, p) == [];
  }

  lemma MarkCountsNothing(line: Line)
    requires IsMark(line)
    ensures !Adds(line) && !Removes(line)
  {
    assert line[0] == line[..3][0] == '@';
    assert |line| >= 1 ==> line[..1][0] == line[0];
  }

  lemma ReachesNext(rules: Rules, lines: seq<Line>, p: nat, n: nat)
    requires p < n < |lines|
    ensures Reaches(rules, lines, p, n) <==> Reaches(rules, lines, p, n - 1) && !Boundary(rules, lines, n)
  {
  }

  lemma FileBeforeNext(lines: seq<Line>, n: nat)
    requires n < |lines|
    ensures FileBefore(lines, n + 1) <==> FileBefore(lines, n) || IsFile(lines[n])
  {
    if FileBefore(lines, n) {
      var j :| 0 <= j < n && j < |lines| && IsFile(lines[j]);
    }
    if IsFile(lines[n]) { assert 0 <= n < n + 1; }
  }

  lemma HunkNext(rules: Rules, lines: seq<Line>, n: nat, st: State, i: nat)
    requires n < |lines| && Sound(st) && Tracks(rules, lines, n, st) && i < |st.arena|
    ensures var p, next := Starts(rules, lines, n)[i], Step(rules, st, lines[n]);
      IsHunkOf(next.arena[i], Gather(rules, lines, p, n + 1))
  {
    var p, next, line := Starts(rules, lines, n)[i], Step(rules, st, lines[n]), lines[n];
    var lines0 := Gather(rules, lines, p, n);
    ReachesNext(rules, lines, p, n);
    if Owns(rules, lines, p, n) {
      assert next.arena[i] == GrowHunk(st.arena[i], line);
      GrowsHunk(st.arena[i], lines0, line);
      assert Gather(rules, lines, p, n + 1) == lines0 + [line];
    } else {
      assert next.arena[i] == st.arena[i];
      assert Gather(rules, lines, p, n + 1) == lines0;
    }
  }

  lemma TracksNext(rules: Rules, lines: seq<Line>, n: nat, st: State)
    requires n < |lines| && Sound(st) && Tracks(rules, lines, n, st)
    ensures Tracks(rules, lines, n + 1, Step(rules, st, lines[n]))
  {
    var line, before, after := lines[n], Starts(rules, lines, n), Starts(rules, lines, n + 1);
    FileBeforeNext(lines, n);
    var next := Step(rules, st, line);
    forall i | 0 <= i < |before|
      ensures after[i] == before[i]
      ensures Reaches(rules, lines, before[i], n) <==> next.open && i == |after| - 1
      ensures IsHunkOf(next.arena[i], Gather(rules, lines, before[i], n + 1))
    {
      var p := before[i];
      ReachesNext(rules, lines, p, n);
      HunkNext(rules, lines, n, st, i);
    }
    if Opens(rules, lines, n) {
      StartIsOwnHunk(rules, lines, n);
      FlattenOne(line);
      MarkCountsNothing(line);
    }
  }

  lemma {:induction false} RunTracks(rules: Rules, lines: seq<Line>, n: nat)
    requires n <= |lines|
    ensures Tracks(rules, lines, n, Run(rules, lines[..n]))
  {
    if n > 0 {
      RunTracks(rules, lines, n - 1);
      assert lines[..n][..n - 1] == lines[..n - 1];
      TracksNext(rules, lines, n - 1, Run(rules, lines[..n - 1]));
    }
  }

  /**
   Every hunk of the result is one opening line with exactly the lines it owns, in order, and its
   totals count them; hunks appear in the order of their opening lines.
   */
  lemma HunksHoldTheirLines(rules: Rules, lines: seq<Line>)
    ensures |Run(rules, lines).arena| == |Starts(rules, lines, |lines|)|
    ensures forall i :: 0 <= i < |Starts(rules, lines, |lines|)| ==>
      && Starts(rules, lines, |lines|)[i] < |lines|
      && IsHunkOf(Run(rules, lines).arena[i], Gather(rules, lines, Starts(rules, lines, |lines|)[i], |lines|))
  {
    RunTracks(rules, lines, |lines|);
    assert lines[..|lines|] == lines;
  }

  ghost predicate WellFormed(rules: Rules, lines: seq<Line>)
  {
    forall k :: 0 <= k < |lines| ==> !Dropped(rules, lines, k)
  }

  /** The first boundary after `p`, or the end. */
  ghost predicate EndsAt(rules: Rules, lines: seq<Line>, p: nat, q: nat)
    requires p < |lines|
  {
    && p < q <= |lines|
    && (forall k :: p < k < q ==> !Boundary(rules, lines, k))
    && (q < |lines| ==> Boundary(rules, lines, q))
  }

  lemma {:induction false} GatherIsSlice(rules: Rules, lines: seq<Line>, p: nat, q: nat, n: nat)
    requires p < |lines| && WellFormed(rules, lines) && Opens(rules, lines, p) && EndsAt(rules, lines, p, q)
      && p < n <= |lines|
    ensures Gather(rules, lines, p, n) == lines[p..if n < q then n else q]
    decreases n
  {
    if n == p + 1 {
      StartIsOwnHunk(rules, lines, p);
    } else {
      GatherIsSlice(rules, lines, p, q, n - 1);
      assert Reaches(rules, lines, p, n - 1) <==> n <= q;
      if n <= q { assert lines[p..n - 1] + [lines[n - 1]] == lines[p..n]; }
    }
  }

  /** With well-formed headers a hunk's text is the whole stretch of raw text up to the next boundary. */
  lemma HunkIsItsStretch(rules: Rules, lines: seq<Line>, i: nat, q: nat)
    requires WellFormed(rules, lines) && i < |Starts(rules, lines, |lines|)|
    requires Starts(rules, lines, |lines|)[i] < |lines| && EndsAt(rules, lines, Starts(rules, lines, |lines|)[i], q)
    ensures |Run(rules, lines).arena| == |Starts(rules, lines, |lines|)|
    ensures Run(rules, lines).arena[i].text == Flatten(lines[Starts(rules, lines, |lines|)[i]..q])
  {
    HunksHoldTheirLines(rules, lines);
    StartsAreOpenings(rules, lines, |lines|);
    GatherIsSlice(rules, lines, Starts(rules, lines, |lines|)[i], q, |lines|);
  }

  // ------------------------------------------------------------ totals

  function Sizes(arena: seq<Hunk>): nat
  {
    if arena == [] then 0 else Sizes(arena[..|arena| - 1]) + |arena[|arena| - 1].text|
  }

  /** The text before the first hunk of each file. */
  ghost function HeadSize(rules: Rules, lines: seq<Line>): nat
  {
    if lines == [] then 0
    else
      var before, line := lines[..|lines| - 1], lines[|lines| - 1];
      HeadSize(rules, before) + if InHead(Run(rules, before), line) then |line| else 0
  }

  function Positions(files: seq<File>): seq<nat>
  {
    if files == [] then [] else Positions(files[..|files| - 1]) + files[|files| - 1].hunks
  }

  function Additions(arena: seq<Hunk>, hunks: seq<nat>): nat
    requires forall i :: 0 <= i < |hunks| ==> hunks[i] < |arena|
  {
    if hunks == [] then 0 else Additions(arena, hunks[..|hunks| - 1]) + arena[hunks[|hunks| - 1]].additions
  }

  function Deletions(arena: seq<Hunk>, hunks: seq<nat>): nat
    requires forall i :: 0 <= i < |hunks| ==> hunks[i] < |arena|
  {
    if hunks == [] then 0 else Deletions(arena, hunks[..|hunks| - 1]) + arena[hunks[|hunks| - 1]].deletions
  }

  function AllAdditions(files: seq<File>): nat
  {
    if files == [] then 0 else AllAdditions(files[..|files| - 1]) + files[|files| - 1].additions
  }

  function AllDeletions(files: seq<File>): nat
  {
    if files == [] then 0 else AllDeletions(files[..|files| - 1]) + files[|files| - 1].deletions
  }

  function UpTo(n: nat): (s: seq<nat>)
    ensures |s| == n && forall i :: 0 <= i < n ==> s[i] == i
  {
    if n == 0 then [] else UpTo(n - 1) + [n - 1]
  }

  /** A file's totals are those of its hunks, which carry its path and their position in it. */
  ghost predicate FileAgrees(rules: Rules, arena: seq<Hunk>, f: File)
  {
    && (forall i :: 0 <= i < |f.hunks| ==> f.hunks[i] < |arena|)
    && (forall i :: 0 <= i < |f.hunks| ==>
      arena[f.hunks[i]].path == f.path && arena[f.hunks[i]].id == rules.idOf(f.path, i))
    && (forall i, j :: 0 <= i < j < |f.hunks| ==> f.hunks[i] < f.hunks[j])
    && f.additions == Additions(arena, f.hunks)
    && f.deletions == Deletions(arena, f.hunks)
  }

  ghost predicate Agrees(rules: Rules, st: State)
  {
    && Positions(st.files) == UpTo(|st.arena|)
    && (forall f :: 0 <= f < |st.files| ==> FileAgrees(rules, st.arena, st.files[f]))
    && (st.open ==> st.files != [] && Last(st.files).hunks != [] && Last(Last(st.files).hunks) == |st.arena| - 1)
  }

  /** The totals of a list of hunks look at those hunks only. */
  lemma {:induction false} TotalsFrame(arena: seq<Hunk>, other: seq<Hunk>, hunks: seq<nat>)
    requires forall i :: 0 <= i < |hunks| ==> hunks[i] < |arena| && hunks[i] < |other|
    requires forall i :: 0 <= i < |hunks| ==>
      arena[hunks[i]].additions == other[hunks[i]].additions && arena[hunks[i]].deletions == other[hunks[i]].deletions
    ensures Additions(arena, hunks) == Additions(other, hunks) && Deletions(arena, hunks) == Deletions(other, hunks)
  {
    if hunks != [] { TotalsFrame(arena, other, hunks[..|hunks| - 1]); }
  }

  lemma {:induction false} PositionsOf(files: seq<File>, other: seq<File>)
    requires |files| == |other| && forall i :: 0 <= i < |files| ==> files[i].hunks == other[i].hunks
    ensures Positions(files) == Positions(other)
  {
    if files != [] { PositionsOf(files[..|files| - 1], other[..|other| - 1]); }
  }

  /** Every file's positions are among all positions. */
  lemma {:induction false} PositionsInclude(files: seq<File>, f: nat, i: nat)
    requires f < |files| && i < |files[f].hunks|
    ensures files[f].hunks[i] in Positions(files)
  {
    if f < |files| - 1 { PositionsInclude(files[..|files| - 1], f, i); }
  }

  /** The last position belongs to one file only. */
  lemma OnlyLastFile(st: State, f: nat, i: nat)
    requires Positions(st.files) == UpTo(|st.arena|) && f < |st.files| - 1 && i < |st.files[f].hunks|
    requires Last(st.files).hunks != [] && Last(Last(st.files).hunks) == |st.arena| - 1
    ensures st.files[f].hunks[i] < |st.arena| - 1
  {
    var front := st.files[..|st.files| - 1];
    PositionsInclude(front, f, i);
    var all, early := Positions(st.files), Positions(front);
    var j :| 0 <= j < |early| && early[j] == st.files[f].hunks[i];
    assert all[j] == early[j] && |all| == |early| + |Last(st.files).hunks|;
  }

  lemma AgreesNewFile(rules: Rules, st: State, line: Line)
    requires Agrees(rules, st)
    ensures Agrees(rules, State(st.arena, st.files + [NewFile(rules, line)], false))
  {
    assert (st.files + [NewFile(rules, line)])[..|st.files|] == st.files;
  }

  lemma FileFrame(rules: Rules, arena: seq<Hunk>, other: seq<Hunk>, f: File)
    requires FileAgrees(rules, arena, f) && |other| >= |arena|
    requires forall i :: 0 <= i < |f.hunks| ==> f.hunks[i] < |other| && other[f.hunks[i]] == arena[f.hunks[i]]
    ensures FileAgrees(rules, other, f)
  {
    TotalsFrame(arena, other, f.hunks);
  }

  lemma FileOpensHunk(rules: Rules, arena: seq<Hunk>, f: File, line: Line)
    requires FileAgrees(rules, arena, f)
    ensures FileAgrees(rules, arena + [NewHunk(rules, f, line)], f.(hunks := f.hunks + [|arena|]))
  {
    var more := arena + [NewHunk(rules, f, line)];
    FileFrame(rules, arena, more, f);
    var hunks := f.hunks + [|arena|];
    assert hunks[..|hunks| - 1] == f.hunks;
    assert more[|arena|] == NewHunk(rules, f, line);
  }

  lemma AgreesNewHunk(rules: Rules, st: State, line: Line)
    requires Agrees(rules, st) && st.files != []
    ensures
      var n, file := |st.files| - 1, Last(st.files);
      Agrees(rules, State(st.arena + [NewHunk(rules, file, line)],
        st.files[n := file.(hunks := file.hunks + [|st.arena|])], true))
  {
    var n, file := |st.files| - 1, Last(st.files);
    var arena := st.arena + [NewHunk(rules, file, line)];
    var files := st.files[n := file.(hunks := file.hunks + [|st.arena|])];
    FileOpensHunk(rules, st.arena, file, line);
    forall f | 0 <= f < n ensures FileAgrees(rules, arena, files[f]) {
      FileFrame(rules, st.arena, arena, st.files[f]);
    }
    assert files[..n] == st.files[..n];
    assert Positions(files) == Positions(st.files) + [|st.arena|];
  }

  lemma FileGrows(rules: Rules, arena: seq<Hunk>, f: File, line: Line)
    requires FileAgrees(rules, arena, f) && f.hunks != [] && Last(f.hunks) == |arena| - 1
    ensures FileAgrees(rules, arena[|arena| - 1 := GrowHunk(Last(arena), line)], GrowFile(f, line))
  {
    var other := arena[|arena| - 1 := GrowHunk(Last(arena), line)];
    var front := f.hunks[..|f.hunks| - 1];
    TotalsFrame(arena, other, front);
  }

  lemma EarlierFileStays(rules: Rules, st: State, f: nat, h: Hunk)
    requires Agrees(rules, st) && Sound(st) && st.open && f < |st.files| - 1
    ensures FileAgrees(rules, st.arena[|st.arena| - 1 := h], st.files[f])
  {
    var arena := st.arena[|st.arena| - 1 := h];
    forall i | 0 <= i < |st.files[f].hunks| ensures st.files[f].hunks[i] < |arena| - 1 {
      OnlyLastFile(st, f, i);
    }
    FileFrame(rules, st.arena, arena, st.files[f]);
  }

  lemma AgreesGrown(rules: Rules, st: State, line: Line)
    requires Agrees(rules, st) && Sound(st) && st.open
    ensures Agrees(rules, State(st.arena[|st.arena| - 1 := GrowHunk(Last(st.arena), line)],
                                st.files[|st.files| - 1 := GrowFile(Last(st.files), line)], true))
  {
    var n := |st.files| - 1;
    var arena := st.arena[|st.arena| - 1 := GrowHunk(Last(st.arena), line)];
    var files := st.files[n := GrowFile(Last(st.files), line)];
    FileGrows(rules, st.arena, Last(st.files), line);
    forall f | 0 <= f < n ensures FileAgrees(rules, arena, files[f]) {
      EarlierFileStays(rules, st, f, Last(arena));
    }
    PositionsOf(st.files, files);
  }

  lemma AgreesNext(rules: Rules, st: State, line: Line)
    requires Agrees(rules, st) && Sound(st)
    ensures Agrees(rules, Step(rules, st, line))
  {
    if IsFile(line) {
      AgreesNewFile(rules, st, line);
    } else if IsMark(line) && st.files != [] {
      if rules.header(line) { AgreesNewHunk(rules, st, line); }
    } else if st.open {
      AgreesGrown(rules, st, line);
    }
  }

  /** The flat list is the files' lists one after the other, and every file total is its hunks' total. */
  lemma {:induction false} FilesAgree(rules: Rules, lines: seq<Line>)
    ensures Agrees(rules, Run(rules, lines))
  {
    if lines != [] {
      var before := lines[..|lines| - 1];
      FilesAgree(rules, before);
      AgreesNext(rules, Run(rules, before), lines[|lines| - 1]);
    }
  }

  lemma {:induction false} TotalsAppend(arena: seq<Hunk>, a: seq<nat>, b: seq<nat>)
    requires forall i :: 0 <= i < |a| ==> a[i] < |arena|
    requires forall i :: 0 <= i < |b| ==> b[i] < |arena|
    ensures Additions(arena, a + b) == Additions(arena, a) + Additions(arena, b)
    ensures Deletions(arena, a + b) == Deletions(arena, a) + Deletions(arena, b)
  {
    if b == [] {
      assert a + b == a;
    } else {
      var n := |b| - 1;
      TotalsAppend(arena, a, b[..n]);
      assert (a + b)[..|a + b| - 1] == a + b[..n];
    }
  }

  lemma {:induction false} FileTotals(rules: Rules, arena: seq<Hunk>, files: seq<File>)
    requires forall f :: 0 <= f < |files| ==> FileAgrees(rules, arena, files[f])
    ensures forall i :: 0 <= i < |Positions(files)| ==> Positions(files)[i] < |arena|
    ensures AllAdditions(files) == Additions(arena, Positions(files))
    ensures AllDeletions(files) == Deletions(arena, Positions(files))
  {
    if files != [] {
      var n := |files| - 1;
      FileTotals(rules, arena, files[..n]);
      assert FileAgrees(rules, arena, files[n]);
      TotalsAppend(arena, Positions(files[..n]), files[n].hunks);
    }
  }

  /** The snapshot's totals are those of all hunks, each counted once. */
  lemma SnapshotTotals(rules: Rules, lines: seq<Line>)
    ensures var st := Run(rules, lines);
      && AllAdditions(st.files) == Additions(st.arena, UpTo(|st.arena|))
      && AllDeletions(st.files) == Deletions(st.arena, UpTo(|st.arena|))
  {
    FilesAgree(rules, lines);
    FileTotals(rules, Run(rules, lines).arena, Run(rules, lines).files);
  }

  lemma {:induction false} SizesGrow(arena: seq<Hunk>, h: Hunk)
    requires arena != []
    ensures Sizes(arena[|arena| - 1 := h]) == Sizes(arena) - |arena[|arena| - 1].text| + |h.text|
  {
    assert arena[|arena| - 1 := h][..|arena| - 1] == arena[..|arena| - 1];
  }

  predicate InHead(st: State, line: Line)
  {
    IsFile(line) || (!st.open && !(IsMark(line) && st.files != []))
  }

  /** The header part is exactly the lines no hunk owns, malformed markers aside. */
  lemma HeadIsUnowned(rules: Rules, lines: seq<Line>, n: nat)
    requires n < |lines|
    ensures InHead(Run(rules, lines[..n]), lines[n]) <==>
            IsFile(lines[n]) || (!Dropped(rules, lines, n) && forall p :: 0 <= p <= n ==> !Owns(rules, lines, p, n))
  {
    var st := Run(rules, lines[..n]);
    RunTracks(rules, lines, n);
    TracksNext(rules, lines, n, st);
    StartsAreOpenings(rules, lines, n + 1);
    var next, starts := Step(rules, st, lines[n]), Starts(rules, lines, n + 1);
    if next.open {
      assert Reaches(rules, lines, Last(starts), n);
    } else {
      forall p | 0 <= p <= n ensures !Owns(rules, lines, p, n) {
        assert Opens(rules, lines, p) ==> p in starts;
      }
    }
  }

  lemma StepSizes(rules: Rules, st: State, line: Line)
    requires Sound(st)
    ensures var lost := !IsFile(line) && IsMark(line) && st.files != [] && !rules.header(line);
      && Sizes(Step(rules, st, line).arena) == Sizes(st.arena) + (if InHead(st, line) || lost then 0 else |line|)
      && (lost ==> !InHead(st, line) && |line| > 0)
  {
    if !IsFile(line) {
      if IsMark(line) && st.files != [] {
        var h := NewHunk(rules, Last(st.files), line);
        assert (st.arena + [h])[..|st.arena|] == st.arena;
      } else if st.open {
        SizesGrow(st.arena, GrowHunk(Last(st.arena), line));
      }
    }
  }

  lemma WellFormedNext(rules: Rules, lines: seq<Line>)
    requires lines != []
    ensures WellFormed(rules, lines) <==> WellFormed(rules, lines[..|lines| - 1]) && !Dropped(rules, lines, |lines| - 1)
  {
    var n := |lines| - 1;
    var before := lines[..n];
    forall k | 0 <= k < n ensures Dropped(rules, before, k) <==> Dropped(rules, lines, k) {
      FileBeforePrefix(lines, n, k);
    }
    assert WellFormed(rules, before) <==> forall k :: 0 <= k < n ==> !Dropped(rules, lines, k);
  }

  lemma FileBeforePrefix(lines: seq<Line>, n: nat, k: nat)
    requires k <= n <= |lines|
    ensures FileBefore(lines[..n], k) <==> FileBefore(lines, k)
  {
    if FileBefore(lines, k) {
      var j :| 0 <= j < k && j < |lines| && IsFile(lines[j]);
      assert IsFile(lines[..n][j]);
    }
    if FileBefore(lines[..n], k) {
      var j :| 0 <= j < k && j < n && IsFile(lines[..n][j]);
      assert IsFile(lines[j]);
    }
  }

  /**
   Conservation: header part and hunks together never exceed the diff, and they are all of it exactly
   when every hunk header after the first file line is well-formed.
   */
  lemma {:induction false} TextIsConserved(rules: Rules, lines: seq<Line>)
    ensures HeadSize(rules, lines) + Sizes(Run(rules, lines).arena) <= |Flatten(lines)|
    ensures HeadSize(rules, lines) + Sizes(Run(rules, lines).arena) == |Flatten(lines)| <==> WellFormed(rules, lines)
  {
    if lines != [] {
      var n := |lines| - 1;
      WellFormedNext(rules, lines);
      TextIsConserved(rules, lines[..n]);
      RunTracks(rules, lines, n);
      StepSizes(rules, Run(rules, lines[..n]), lines[n]);
    }
  }

  // ------------------------------------------------------------ files and their lines

  /** The file lines of a diff, in order. */
  function FileLines(lines: seq<Line>): seq<Line>
  {
    if lines == [] then []
    else FileLines(lines[..|lines| - 1]) + (if IsFile(lines[|lines| - 1]) then [lines[|lines| - 1]] else [])
  }

  /** There is one file per file line, with the path of that line. */
  lemma {:induction false} FilesAreTheirLines(rules: Rules, lines: seq<Line>)
    ensures |Run(rules, lines).files| == |FileLines(lines)|
    ensures forall f :: 0 <= f < |FileLines(lines)| ==>
      Run(rules, lines).files[f].path == rules.pathOf(FileLines(lines)[f])
  {
    if lines != [] { FilesAreTheirLines(rules, lines[..|lines| - 1]); }
  }

  // ------------------------------------------------------------ identities

  lemma HunkIdentity(rules: Rules, st: State, a: nat) returns (f: nat, i: nat)
    requires Agrees(rules, st) && a < |st.arena|
    ensures f < |st.files| && i < |st.files[f].hunks| && st.files[f].hunks[i] == a
    ensures st.arena[a].id == rules.idOf(st.files[f].path, i)
  {
    assert Positions(st.files)[a] == a;
    f, i := Locate(st.files, a);
    assert FileAgrees(rules, st.arena, st.files[f]);
  }

  ghost predicate CollisionFree(rules: Rules)
  {
    forall p, i, q, j :: rules.idOf(p, i) == rules.idOf(q, j) ==> p == q && i == j
  }

  ghost predicate DistinctIds(arena: seq<Hunk>)
  {
    forall a, b :: 0 <= a < b < |arena| ==> arena[a].id != arena[b].id
  }

  /** Two file blocks of one path that both have hunks, as Git prints them when a file changes its type. */
  ghost predicate SamePathTwice(files: seq<File>)
  {
    exists f, g ::
      0 <= f < g < |files| && files[f].path == files[g].path && files[f].hunks != [] && files[g].hunks != []
  }

  /** With a collision-free hash no hunk id repeats, if and only if no path has hunks in two file blocks. */
  lemma IdsAreDistinctIff(rules: Rules, lines: seq<Line>)
    requires CollisionFree(rules)
    ensures DistinctIds(Run(rules, lines).arena) <==> !SamePathTwice(Run(rules, lines).files)
  {
    var st := Run(rules, lines);
    FilesAgree(rules, lines);
    if SamePathTwice(st.files) {
      var f, g :| 0 <= f < g < |st.files| && st.files[f].path == st.files[g].path
                  && st.files[f].hunks != [] && st.files[g].hunks != [];
      FirstHunksClash(rules, st, f, g);
    } else {
      forall a, b | 0 <= a < b < |st.arena| ensures st.arena[a].id != st.arena[b].id {
        HunksDiffer(rules, st, a, b);
      }
    }
  }

  lemma HunksDiffer(rules: Rules, st: State, a: nat, b: nat)
    requires CollisionFree(rules) && Agrees(rules, st) && !SamePathTwice(st.files) && a < b < |st.arena|
    ensures st.arena[a].id != st.arena[b].id
  {
    var f, i := HunkIdentity(rules, st, a);
    var g, j := HunkIdentity(rules, st, b);
    assert f == g ==> i != j;
    assert f < g || g < f ==> st.files[f].path != st.files[g].path;
  }

  lemma FirstHunksClash(rules: Rules, st: State, f: nat, g: nat)
    requires Agrees(rules, st) && f < g < |st.files| && st.files[f].path == st.files[g].path
    requires st.files[f].hunks != [] && st.files[g].hunks != []
    ensures !DistinctIds(st.arena)
  {
    var a, b := st.files[f].hunks[0], st.files[g].hunks[0];
    assert FileAgrees(rules, st.arena, st.files[f]) && FileAgrees(rules, st.arena, st.files[g]);
    HunksApart(st.files, f, g, 0, 0);
    assert a < |st.arena| && b < |st.arena| && st.arena[a].id == st.arena[b].id;
    assert a < b || b < a;
  }

  /** No hunk sits in two files. */
  lemma {:induction false} HunksApart(files: seq<File>, f: nat, g: nat, i: nat, j: nat)
    requires forall x, y :: 0 <= x < y < |Positions(files)| ==> Positions(files)[x] != Positions(files)[y]
    requires f < g < |files| && i < |files[f].hunks| && j < |files[g].hunks|
    ensures files[f].hunks[i] != files[g].hunks[j]
  {
    var n := |files| - 1;
    var front, all := Positions(files[..n]), Positions(files);
    assert forall x :: 0 <= x < |front| ==> all[x] == front[x];
    if g == n {
      PositionsInclude(files[..n], f, i);
      var x :| 0 <= x < |front| && front[x] == files[f].hunks[i];
      assert all[|front| + j] == files[g].hunks[j];
    } else {
      HunksApart(files[..n], f, g, i, j);
    }
  }

  // ------------------------------------------------------------ texts by id

  /** The snapshot's text lookup: a later hunk of the same id replaces an earlier one. */
  function TextsById(arena: seq<Hunk>): map<Token, string>
  {
    if arena == [] then map[]
    else TextsById(arena[..|arena| - 1])[arena[|arena| - 1].id := arena[|arena| - 1].text]
  }

  /** `k` is the last hunk of its id. */
  ghost predicate LastOfId(arena: seq<Hunk>, k: nat)
  {
    k < |arena| && forall m :: k < m < |arena| ==> arena[m].id != arena[k].id
  }

  lemma {:induction false} LookupFindsLast(arena: seq<Hunk>, i: nat) returns (k: nat)
    requires i < |arena|
    ensures i <= k && LastOfId(arena, k) && arena[k].id == arena[i].id
    ensures arena[i].id in TextsById(arena) && TextsById(arena)[arena[i].id] == arena[k].text
  {
    var n := |arena| - 1;
    if arena[n].id == arena[i].id {
      k := n;
    } else {
      k := LookupFindsLast(arena[..n], i);
      assert forall m :: k < m < n ==> arena[..n][m] == arena[m];
    }
  }

  /** Every hunk's text can be looked up by its id, if and only if no two hunks of one id differ in text. */
  lemma TextsAreFoundIff(arena: seq<Hunk>)
    ensures (forall i :: 0 <= i < |arena| ==>
               arena[i].id in TextsById(arena) && TextsById(arena)[arena[i].id] == arena[i].text)
            <==> forall i, j :: 0 <= i < j < |arena| && arena[i].id == arena[j].id ==> arena[i].text == arena[j].text
  {
    forall i | 0 <= i < |arena|
      ensures arena[i].id in TextsById(arena)
      ensures (forall x, y :: 0 <= x < y < |arena| && arena[x].id == arena[y].id ==> arena[x].text == arena[y].text)
              ==> TextsById(arena)[arena[i].id] == arena[i].text
    {
      var k := LookupFindsLast(arena, i);
    }
  }

  /**
   A file that changes its type: two blocks of one path with one hunk each. Both hunks get the same id,
   and the text of the first can no longer be looked up.
   */
  lemma TypeChangeRepeatsId(rules: Rules, d1: Line, h1: Line, d2: Line, h2: Line)
    requires IsFile(d1) && IsFile(d2) && IsMark(h1) && IsMark(h2) && !IsFile(h1) && !IsFile(h2)
    requires rules.header(h1) && rules.header(h2) && rules.pathOf(d1) == rules.pathOf(d2) && h1 != h2
    ensures var arena := Run(rules, [d1, h1, d2, h2]).arena;
      && |arena| == 2 && arena[0].id == arena[1].id && arena[0].text == h1 && arena[1].text == h2
      && arena[0].id in TextsById(arena) && TextsById(arena)[arena[0].id] != arena[0].text
  {
    var lines := [d1, h1, d2, h2];
    assert lines[..3] == [d1, h1, d2] && lines[..3][..2] == [d1, h1] && [d1, h1][..1] == [d1] && [d1][..0] == [];
    var s0 := State([], [], false);
    assert Run(rules, []) == s0;
    var s1 := Step(rules, s0, d1);
    assert Run(rules, [d1]) == s1;
    var s2 := Step(rules, s1, h1);
    assert Run(rules, [d1, h1]) == s2;
    var s3 := Step(rules, s2, d2);
    assert Run(rules, [d1, h1, d2]) == s3;
    var arena := Run(rules, lines).arena;
    assert arena == Step(rules, s3, h2).arena;
    var k := LookupFindsLast(arena, 0);
    assert k == 1;
  }

  /** The file, and the place in it, of one of all positions. */
  lemma {:induction false} Locate(files: seq<File>, a: nat) returns (f: nat, i: nat)
    requires a < |Positions(files)|
    ensures f < |files| && i < |files[f].hunks| && files[f].hunks[i] == Positions(files)[a]
  {
    var front := files[..|files| - 1];
    if a < |Positions(front)| {
      f, i := Locate(front, a);
    } else {
      f, i := |files| - 1, a - |Positions(front)|;
    }
  }
}
