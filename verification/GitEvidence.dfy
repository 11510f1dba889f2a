/**
 Splitting commit evidence into a compact record and the complete body it leaves behind. Records are
 JSON objects; the field names the code mentions are constructors, every other name is `Other`.
 */
module GitEvidence {
  datatype Key =
    | StageManifestBefore | StageManifestAfter | GitStatusText | RemainingDirtyFiles
    | Compacted | CompactionVersion | GitStatusLineCount
    | Files | Untracked | ToolOwned | FileCount | ToolOwnedCount | ToolOwnedSummary
    | FilesListedCount | FilesOmittedCount | FilesTruncated
    | TotalCount | RootGroupCounts | Paths | ListedCount | OmittedCount | Truncated
    | CommitResult | Preserved | EvidenceRef | Sha256 | SizeBytes | RefFields
    | Other(name: string)

  datatype Value =
    | Null
    | Flag(flag: bool)
    | Number(number: int)
    | Text(text: string)
    | Items(items: seq<Value>)
    | Object(fields: map<Key, Value>)

  type Record = map<Key, Value>

  /** Helpers outside this model: path classification, `str` of each element, line splitting. */
  datatype Tools = Tools(
    owned: string -> bool,
    root: string -> string,
    texts: Value -> seq<string>,
    lineCount: Value -> nat,
    summary: seq<Value> -> Value)

  const VERSION: int := 1
  const MAX_LISTED_PATHS: nat := 500

  predicate Truthy(v: Value)
  {
    match v
    case Null => false
    case Flag(b) => b
    case Number(n) => n != 0
    case Text(s) => s != ""
    case Items(xs) => xs != []
    case Object(m) => m != map[]
  }

  function Get(m: Record, k: Key): Value
  {
    if k in m then m[k] else Null
  }

  // ------------------------------------------------------------ path lists

  datatype PathSummary = PathSummary(
    total: nat, owned: nat, groups: map<string, nat>, paths: seq<string>, listed: nat, omitted: nat, truncated: bool)

  function Filter<T>(xs: seq<T>, p: T -> bool): (r: seq<T>)
    ensures |r| <= |xs|
  {
    if xs == [] then []
    else Filter(xs[..|xs| - 1], p) + (if p(xs[|xs| - 1]) then [xs[|xs| - 1]] else [])
  }

  function NotOwned(t: Tools): string -> bool
  {
    (p: string) => !t.owned(p)
  }

  function Count<T>(xs: seq<T>, p: T -> bool): nat
  {
    |Filter(xs, p)|
  }

  /** The sum of a map's values. */
  ghost function Total(m: map<string, nat>): nat
    decreases |m|
  {
    if m == map[] then 0
    else
      var k :| k in m;
      m[k] + Total(m - {k})
  }

  lemma {:induction false} TotalRemove(m: map<string, nat>, k: string)
    requires k in m
    ensures Total(m) == m[k] + Total(m - {k})
    decreases |m|
  {
    var j :| j in m && Total(m) == m[j] + Total(m - {j});
    if j != k {
      TotalRemove(m - {j}, k);
      TotalRemove(m - {k}, j);
      assert m - {j} - {k} == m - {k} - {j};
    }
  }

  lemma TotalRaise(m: map<string, nat>, k: string)
    ensures Total(m[k := (if k in m then m[k] else 0) + 1]) == Total(m) + 1
  {
    var more := m[k := (if k in m then m[k] else 0) + 1];
    TotalRemove(more, k);
    assert more - {k} == m - {k};
    if k in m { TotalRemove(m, k); } else { assert m - {k} == m; }
  }

  ghost predicate CountsRoots(t: Tools, owned: seq<string>, groups: map<string, nat>)
  {
    && (forall p :: p in owned ==> t.root(p) in groups)
    && (forall r :: r in groups ==> groups[r] == Count(owned, (p: string) => t.root(p) == r) && groups[r] > 0)
  }

  /**
   Path list summary: the counts balance, what is listed is a prefix of the paths that are not
   tool-owned, and the root groups split up exactly the tool-owned ones.
   */
  method CompactPathList(t: Tools, paths: seq<string>, limit: nat) returns (s: PathSummary)
    ensures s.total == |paths| == s.owned + Count(paths, NotOwned(t))
    ensures s.owned == Count(paths, t.owned) == Total(s.groups)
    ensures CountsRoots(t, Filter(paths, t.owned), s.groups)
    ensures s.listed == |s.paths| && s.listed + s.omitted == s.total
    ensures s.listed <= Count(paths, NotOwned(t)) && s.paths == Filter(paths, NotOwned(t))[..s.listed]
    ensures s.truncated <==> s.owned + s.listed < s.total
    ensures s.truncated ==> s.listed == limit
    ensures s.listed <= limit
    ensures s == Summarize(t, paths, limit)
  {
    var owned, retained := Filter(paths, t.owned), Filter(paths, NotOwned(t));
    FilterSplits(paths, t.owned, NotOwned(t));
    var groups: map<string, nat> := map[];
    assert owned[..0] == [];
    for i := 0 to |owned|
      invariant groups == Groups(t, owned[..i])
    {
      assert owned[..i + 1][..i] == owned[..i];
      var root := t.root(owned[i]);
      groups := groups[root := (if root in groups then groups[root] else 0) + 1];
    }
    assert owned[..|owned|] == owned;
    GroupsCount(t, owned);
    var listed := if limit < |retained| then retained[..limit] else retained;
    s := PathSummary(|paths|, |owned|, groups, listed, |listed|, |paths| - |listed|, |retained| > |listed|);
  }

  function Groups(t: Tools, owned: seq<string>): map<string, nat>
  {
    if owned == [] then map[]
    else
      var before, root := Groups(t, owned[..|owned| - 1]), t.root(owned[|owned| - 1]);
      before[root := (if root in before then before[root] else 0) + 1]
  }

  lemma {:induction false} GroupsCount(t: Tools, owned: seq<string>)
    ensures Total(Groups(t, owned)) == |owned| && CountsRoots(t, owned, Groups(t, owned))
  {
    if owned != [] {
      var n := |owned| - 1;
      var before, root := owned[..n], t.root(owned[n]);
      GroupsCount(t, before);
      TotalRaise(Groups(t, before), root);
      forall r ensures r in Groups(t, owned) ==>
        Groups(t, owned)[r] == Count(owned, (p: string) => t.root(p) == r) > 0 {
        NextCount(t, owned, r);
      }
      forall p | p in owned ensures t.root(p) in Groups(t, owned) {
        var i :| 0 <= i < |owned| && owned[i] == p;
        if i < n { assert before[i] == p; }
      }
    }
  }

  lemma NextCount(t: Tools, owned: seq<string>, r: string)
    requires owned != [] && CountsRoots(t, owned[..|owned| - 1], Groups(t, owned[..|owned| - 1]))
    ensures r in Groups(t, owned) ==> Groups(t, owned)[r] == Count(owned, (p: string) => t.root(p) == r) > 0
  {
    var n := |owned| - 1;
    var before := owned[..n];
    if r !in Groups(t, before) {
      forall i | 0 <= i < n ensures t.root(before[i]) != r { assert before[i] in before; }
      NoneCounted(before, (p: string) => t.root(p) == r);
    }
  }

  lemma {:induction false} NoneCounted(xs: seq<string>, p: string -> bool)
    requires forall i :: 0 <= i < |xs| ==> !p(xs[i])
    ensures Filter(xs, p) == []
  {
    if xs != [] { NoneCounted(xs[..|xs| - 1], p); }
  }

  lemma {:induction false} FilterSplits<T>(xs: seq<T>, p: T -> bool, q: T -> bool)
    requires forall x :: q(x) <==> !p(x)
    ensures |xs| == |Filter(xs, p)| + |Filter(xs, q)|
  {
    if xs != [] { FilterSplits(xs[..|xs| - 1], p, q); }
  }

  function Summarize(t: Tools, paths: seq<string>, limit: nat): PathSummary
  {
    var owned, retained := Filter(paths, t.owned), Filter(paths, NotOwned(t));
    var listed := if limit < |retained| then limit else |retained|;
    PathSummary(|paths|, |owned|, Groups(t, owned), retained[..listed], listed, |paths| - listed, |retained| > listed)
  }

  function PathListValue(t: Tools, v: Value, limit: nat): Value
  {
    var s := Summarize(t, if Truthy(v) then t.texts(v) else [], limit);
    Object(map[
      TotalCount := Number(s.total),
      ToolOwnedCount := Number(s.owned),
      RootGroupCounts := Object(map k | k in s.groups :: Other(k) := Number(s.groups[k])),
      Paths := Items(seq(|s.paths|, i requires 0 <= i < |s.paths| => Text(s.paths[i]))),
      ListedCount := Number(s.listed),
      OmittedCount := Number(s.omitted),
      Truncated := Flag(s.truncated)])
  }

  /** A recorded path list carries balanced counts: total = tool-owned + retained = listed + omitted. */
  lemma PathListBalances(t: Tools, v: Value, limit: nat)
    ensures
      var paths := if Truthy(v) then t.texts(v) else [];
      var m := PathListValue(t, v, limit).fields;
      && m.Keys >= {TotalCount, ToolOwnedCount, Paths, ListedCount, OmittedCount, Truncated}
      && m[TotalCount] == Number(|paths|) && m[ToolOwnedCount] == Number(Count(paths, t.owned))
      && m[TotalCount] == Number(Count(paths, t.owned) + Count(paths, NotOwned(t)))
      && m[Paths].Items? && m[ListedCount] == Number(|m[Paths].items|)
        && m[OmittedCount] == Number(|paths| - |m[Paths].items|)
      && (m[Truncated] == Flag(true) <==> Count(paths, t.owned) + |m[Paths].items| < |paths|)
  {
    SummaryBalances(t, if Truthy(v) then t.texts(v) else [], limit);
  }

  /** The recorded paths are the first of those not tool-owned. */
  lemma PathListPaths(t: Tools, v: Value, limit: nat)
    ensures
      var paths := if Truthy(v) then t.texts(v) else [];
      var m, retained := PathListValue(t, v, limit).fields, Filter(paths, NotOwned(t));
      && Paths in m && m[Paths].Items? && |m[Paths].items| <= |retained| && |m[Paths].items| <= limit
      && (|m[Paths].items| < |retained| ==> |m[Paths].items| == limit)
      && (forall i :: 0 <= i < |m[Paths].items| ==> m[Paths].items[i] == Text(retained[i]))
  {
  }

  /** A count per root, as a record. */
  function Named(groups: map<string, nat>): Record
  {
    map k | k in groups :: Other(k) := Number(groups[k])
  }

  lemma NamedMeans(groups: map<string, nat>, root: string)
    ensures Other(root) in Named(groups) <==> root in groups
    ensures root in groups ==> Named(groups)[Other(root)] == Number(groups[root])
  {
    if root in groups { assert Other(root) in Named(groups); }
  }

  /** The recorded groups are the counts of the tool-owned paths of each root. */
  lemma PathListGroups(t: Tools, v: Value, limit: nat)
    ensures var paths := if Truthy(v) then t.texts(v) else [];
      Get(PathListValue(t, v, limit).fields, RootGroupCounts) == Object(Named(Groups(t, Filter(paths, t.owned))))
  {
    var paths := if Truthy(v) then t.texts(v) else [];
    assert Summarize(t, paths, limit).groups == Groups(t, Filter(paths, t.owned));
  }

  lemma SummaryBalances(t: Tools, paths: seq<string>, limit: nat)
    ensures var s := Summarize(t, paths, limit);
      && s.total == |paths| == s.owned + Count(paths, NotOwned(t)) && s.owned == Count(paths, t.owned)
      && s.listed == |s.paths| && s.omitted == |paths| - s.listed
      && (s.truncated <==> s.owned + s.listed < |paths|)
  {
    FilterSplits(paths, t.owned, NotOwned(t));
  }

  // ------------------------------------------------------------ stage manifests

  const BulkyManifest: set<Key> := {Files, Untracked, ToolOwned, GitStatusText}
  const ManifestMarkers: set<Key> := {
    Untracked, FileCount, ToolOwnedCount, ToolOwnedSummary, Files, FilesListedCount, FilesOmittedCount,
    FilesTruncated, GitStatusLineCount, Compacted, CompactionVersion}

  predicate OwnedEntry(v: Value)
  {
    v.Object? && Truthy(Get(v.fields, ToolOwned))
  }

  predicate RetainedEntry(v: Value)
  {
    v.Object? && !Truthy(Get(v.fields, ToolOwned))
  }

  function Entries(m: Record): seq<Value>
  {
    var v := Get(m, Files);
    if v.Items? then v.items else []
  }

  function Prefix<T>(xs: seq<T>, limit: nat): (r: seq<T>)
    ensures |r| == (if limit < |xs| then limit else |xs|) && r == xs[..|r|]
  {
    if limit < |xs| then xs[..limit] else xs
  }

  function ManifestSummary(untracked: Value, entries: seq<Value>, owned: nat, summary: Value, retained: seq<Value>,
    lines: nat, limit: nat): (r: Record)
    ensures r.Keys == ManifestMarkers
    ensures r[Compacted] == Flag(true) && r[Untracked] == untracked && r[ToolOwnedSummary] == summary
    ensures r[Files] == Items(Prefix(retained, limit))
    ensures r[FileCount] == Number(|entries|) && r[ToolOwnedCount] == Number(owned)
      && r[GitStatusLineCount] == Number(lines)
    ensures r[FilesListedCount] == Number(|Prefix(retained, limit)|)
    ensures r[FilesOmittedCount] == Number(|entries| - |Prefix(retained, limit)|)
    ensures r[FilesTruncated] == Flag(Prefix(retained, limit) != retained)
  {
    var listed := Prefix(retained, limit);
    map[
      Untracked := untracked,
      FileCount := Number(|entries|),
      ToolOwnedCount := Number(owned),
      ToolOwnedSummary := summary,
      Files := Items(listed),
      FilesListedCount := Number(|listed|),
      FilesOmittedCount := Number(|entries| - |listed|),
      FilesTruncated := Flag(|retained| > |listed|),
      GitStatusLineCount := Number(lines),
      Compacted := Flag(true),
      CompactionVersion := Number(VERSION)]
  }

  function Kept(m: Record): Record
  {
    map k | k in m && k !in BulkyManifest :: m[k]
  }

  function SummaryOf(t: Tools, m: Record, limit: nat): (r: Record)
    ensures r.Keys == ManifestMarkers
  {
    var entries := Entries(m);
    var owned := Filter(entries, OwnedEntry);
    ManifestSummary(PathListValue(t, Get(m, Untracked), limit), entries, |owned|, t.summary(owned),
                    Filter(entries, RetainedEntry), t.lineCount(Get(m, GitStatusText)), limit)
  }

  function CompactManifestFields(t: Tools, m: Record, limit: nat): Record
  {
    Kept(m) + SummaryOf(t, m, limit)
  }

  function CompactManifest(t: Tools, v: Value, limit: nat): Value
  {
    if !v.Object? || Truthy(Get(v.fields, Compacted)) then v
    else Object(CompactManifestFields(t, v.fields, limit))
  }

  /** Compacting a manifest twice is compacting it once. */
  lemma ManifestIdempotent(t: Tools, v: Value, limit: nat, again: nat)
    ensures CompactManifest(t, CompactManifest(t, v, limit), again) == CompactManifest(t, v, limit)
  {
    if v.Object? && !Truthy(Get(v.fields, Compacted)) {
      var c := CompactManifestFields(t, v.fields, limit);
      assert Get(c, Compacted) == Flag(true);
    }
  }

  lemma Overlay(a: Record, b: Record, k: Key)
    requires k !in b
    ensures (k in a + b <==> k in a) && (k in a ==> (a + b)[k] == a[k])
  {
  }

  /**
   Compacting a manifest touches only the bulky fields and the markers, so the staged, unstaged,
   deleted, renamed and ignored lists stay exact.
   */
  lemma ManifestKeepsTheRest(t: Tools, m: Record, limit: nat, k: Key)
    requires !Truthy(Get(m, Compacted)) && k !in BulkyManifest && k !in ManifestMarkers
    ensures var c := CompactManifest(t, Object(m), limit);
      c.Object? && (k in c.fields <==> k in m) && (k in m ==> c.fields[k] == m[k])
  {
    Overlay(Kept(m), SummaryOf(t, m, limit), k);
  }

  lemma NoBulkMarker()
    ensures GitStatusText !in ManifestMarkers && ToolOwned !in ManifestMarkers
  {
  }

  /** The status text and the tool-owned list are gone from a compact manifest. */
  lemma ManifestDropsBulk(t: Tools, m: Record, limit: nat)
    ensures GitStatusText !in CompactManifestFields(t, m, limit) && ToolOwned !in CompactManifestFields(t, m, limit)
  {
    NoBulkMarker();
    Overlay(Kept(m), SummaryOf(t, m, limit), GitStatusText);
    Overlay(Kept(m), SummaryOf(t, m, limit), ToolOwned);
  }

  /** The listed files are a prefix of those not tool-owned, and the file counts balance. */
  lemma ManifestBalances(t: Tools, m: Record, limit: nat)
    ensures var c, retained := CompactManifestFields(t, m, limit), Filter(Entries(m), RetainedEntry);
      && c.Keys >= {Files, FileCount, ToolOwnedCount, GitStatusLineCount, FilesListedCount, FilesOmittedCount,
        FilesTruncated}
      && c[FileCount] == Number(|Entries(m)|) && c[ToolOwnedCount] == Number(Count(Entries(m), OwnedEntry))
      && c[GitStatusLineCount] == Number(t.lineCount(Get(m, GitStatusText)))
      && ToolOwnedSummary in c && c[ToolOwnedSummary] == t.summary(Filter(Entries(m), OwnedEntry))
      && c[Files].Items? && |c[Files].items| <= limit && |c[Files].items| <= |retained|
      && c[Files].items == retained[..|c[Files].items|]
      && c[FilesListedCount] == Number(|c[Files].items|)
      && c[FilesOmittedCount] == Number(|Entries(m)| - |c[Files].items|)
      && c[FilesTruncated] == Flag(c[Files].items != retained)
  {
    var c, summary := CompactManifestFields(t, m, limit), SummaryOf(t, m, limit);
    assert forall k :: k in ManifestMarkers ==> k in c && c[k] == summary[k];
  }

  // ------------------------------------------------------------ commit results

  const BulkyFields: seq<Key> := [StageManifestBefore, StageManifestAfter, GitStatusText, RemainingDirtyFiles]
  const Bulky: set<Key> := {StageManifestBefore, StageManifestAfter, GitStatusText, RemainingDirtyFiles}

  function Reduced(t: Tools, k: Key, v: Value, limit: nat): Value
  {
    if k == StageManifestBefore || k == StageManifestAfter then CompactManifest(t, v, limit)
    else if k == RemainingDirtyFiles then PathListValue(t, v, limit)
    else v
  }

  /** What is moved out once the bulky fields in `done` are treated. */
  function Body(m: Record, done: set<Key>): Record
  {
    map k | k in m && k in done :: m[k]
  }

  /** What is left: reduced fields, and a line count in place of the status text. */
  function Rest(t: Tools, m: Record, done: set<Key>, limit: nat): Record
  {
    var counted := GitStatusText in done && GitStatusText in m;
    map k | k in m.Keys + {GitStatusLineCount} && !(k == GitStatusText && counted) && (k in m || counted) ::
      if k == GitStatusLineCount && counted then Number(t.lineCount(m[GitStatusText]))
      else if k in done then Reduced(t, k, m[k], limit)
      else m[k]
  }

  function Mark(m: Record): Record
  {
    m[Compacted := Flag(true)][CompactionVersion := Number(VERSION)]
  }

  datatype Parts = Parts(compact: Value, body: Record)

  function Compact(t: Tools, v: Value, limit: nat): Parts
  {
    if !v.Object? || Truthy(Get(v.fields, Compacted)) then Parts(v, map[])
    else if Body(v.fields, Bulky) == map[] then Parts(v, map[])
    else Parts(Object(Mark(Rest(t, v.fields, Bulky, limit))), Body(v.fields, Bulky))
  }

  lemma BodyNext(m: Record, done: set<Key>, k: Key)
    ensures k in m ==> Body(m, done + {k}) == Body(m, done)[k := m[k]]
    ensures k !in m ==> Body(m, done + {k}) == Body(m, done)
  {
  }

  lemma RestUntreated(t: Tools, m: Record, done: set<Key>, k: Key, limit: nat)
    requires k in Bulky && k !in done
    ensures k in m <==> k in Rest(t, m, done, limit)
    ensures k in m ==> Rest(t, m, done, limit)[k] == m[k]
    ensures k !in m ==> Rest(t, m, done + {k}, limit) == Rest(t, m, done, limit)
  {
    assert k != GitStatusLineCount;
  }

  lemma RestReduced(t: Tools, m: Record, done: set<Key>, k: Key, limit: nat)
    requires k in Bulky && k !in done && k in m && k != GitStatusText
    ensures Rest(t, m, done + {k}, limit) == Rest(t, m, done, limit)[k := Reduced(t, k, m[k], limit)]
  {
    assert k != GitStatusLineCount;
  }

  lemma RestCounted(t: Tools, m: Record, done: set<Key>, limit: nat)
    requires GitStatusText !in done && GitStatusText in m
    ensures Rest(t, m, done + {GitStatusText}, limit) ==
            Rest(t, m, done, limit)[GitStatusLineCount := Number(t.lineCount(m[GitStatusText]))] - {GitStatusText}
  {
  }

  /** The body of the loop over the bulky fields. */
  method ReduceField(t: Tools, k: Key, limit: nat, compact0: Record, body0: Record, ghost m: Record,
    ghost done: set<Key>)
    returns (compact: Record, body: Record)
    requires k in Bulky && k !in done && done <= Bulky
    requires compact0 == Rest(t, m, done, limit) && body0 == Body(m, done)
    ensures compact == Rest(t, m, done + {k}, limit) && body == Body(m, done + {k})
  {
    compact, body := compact0, body0;
    BodyNext(m, done, k);
    RestUntreated(t, m, done, k, limit);
    if k !in compact { return; }
    if k == GitStatusText { RestCounted(t, m, done, limit); } else { RestReduced(t, m, done, k, limit); }
    var value := compact[k];
    body := body[k := value];
    if k == StageManifestBefore || k == StageManifestAfter {
      compact := compact[k := CompactManifest(t, value, limit)];
    } else if k == GitStatusText {
      compact := compact[GitStatusLineCount := Number(t.lineCount(value))];
      compact := compact - {k};
    } else {
      compact := compact[k := PathListValue(t, value, limit)];
    }
  }

  lemma RestOfNothing(t: Tools, m: Record, done: set<Key>, limit: nat)
    requires forall k :: k in m ==> k !in done
    ensures Rest(t, m, done, limit) == m
  {
  }

  /** One bulky field after the other is reduced or removed; the markers come last. */
  method CompactCommitResult(t: Tools, v: Value, limit: nat) returns (r: Parts)
    ensures r == Compact(t, v, limit)
  {
    if !v.Object? || Truthy(Get(v.fields, Compacted)) { return Parts(v, map[]); }
    var m := v.fields;
    var body: Record, compact := map[], m;
    RestOfNothing(t, m, {}, limit);
    for i := 0 to |BulkyFields|
      invariant body == Body(m, Treated(i)) && compact == Rest(t, m, Treated(i), limit)
    {
      TreatedNext(i);
      compact, body := ReduceField(t, BulkyFields[i], limit, compact, body, m, Treated(i));
    }
    TreatedAll();
    if body == map[] {
      assert forall k :: k in m && k in Bulky ==> k in body;
      RestOfNothing(t, m, Bulky, limit);
      return Parts(Object(compact), map[]);
    }
    compact := compact[Compacted := Flag(true)];
    compact := compact[CompactionVersion := Number(VERSION)];
    return Parts(Object(compact), body);
  }

  ghost function Treated(i: nat): set<Key>
    requires i <= |BulkyFields|
  {
    set j | 0 <= j < i :: BulkyFields[j]
  }

  lemma TreatedNext(i: nat)
    requires i < |BulkyFields|
    ensures BulkyFields[i] in Bulky && BulkyFields[i] !in Treated(i) && Treated(i) <= Bulky
    ensures Treated(i + 1) == Treated(i) + {BulkyFields[i]}
  {
  }

  lemma TreatedAll()
    ensures Treated(|BulkyFields|) == Bulky
  {
    assert BulkyFields[0] in Treated(4) && BulkyFields[1] in Treated(4) && BulkyFields[2] in Treated(4)
      && BulkyFields[3] in Treated(4);
  }

  /** The keys compaction added, as a reader of the two parts can tell. */
  function Added(body: Record): set<Key>
  {
    if body == map[] then {}
    else {Compacted, CompactionVersion} + (if GitStatusText in body then {GitStatusLineCount} else {})
  }

  /** Overlay the body on the compact record and drop what compaction added. */
  function Restore(p: Parts): Value
  {
    if p.compact.Object? then Object((p.compact.fields + p.body) - Added(p.body)) else p.compact
  }

  /** What restoring gives in every case: the original without any field a marker replaced. */
  lemma RestoreGives(t: Tools, m: Record, limit: nat)
    requires !Truthy(Get(m, Compacted))
    ensures Restore(Compact(t, Object(m), limit)) == Object(m - Added(Body(m, Bulky)))
  {
    var body := Body(m, Bulky);
    if body == map[] {
      assert m + map[] - {} == m;
      assert m - {} == m;
    } else {
      OverlayGives(t, m, limit);
    }
  }

  lemma OverlayGives(t: Tools, m: Record, limit: nat)
    requires Body(m, Bulky) != map[]
    ensures (Mark(Rest(t, m, Bulky, limit)) + Body(m, Bulky)) - Added(Body(m, Bulky)) == m - Added(Body(m, Bulky))
  {
    var body := Body(m, Bulky);
    var back, want := (Mark(Rest(t, m, Bulky, limit)) + body) - Added(body), m - Added(body);
    forall k ensures k in back <==> k in want { OverlayAt(t, m, limit, k); }
    forall k | k in want ensures back[k] == want[k] { OverlayAt(t, m, limit, k); }
  }

  lemma OverlayAt(t: Tools, m: Record, limit: nat, k: Key)
    requires Body(m, Bulky) != map[]
    ensures var body := Body(m, Bulky);
      var whole := Mark(Rest(t, m, Bulky, limit)) + body;
      k !in Added(body) ==> (k in whole <==> k in m) && (k in m ==> whole[k] == m[k])
  {
    var body := Body(m, Bulky);
    assert GitStatusText in body <==> GitStatusText in m;
  }

  /** Nothing is lost, exactly when the record did not already use a marker's name. */
  lemma LosslessIffNoMarker(t: Tools, v: Value, limit: nat)
    ensures Restore(Compact(t, v, limit)) == v <==>
            !v.Object? || Truthy(Get(v.fields, Compacted)) || v.fields.Keys !! Added(Body(v.fields, Bulky))
  {
    if v.Object? {
      var m := v.fields;
      if Truthy(Get(m, Compacted)) {
        assert m + map[] - {} == m;
      } else {
        RestoreGives(t, m, limit);
        var added := Added(Body(m, Bulky));
        assert (m - added).Keys == m.Keys - added;
        if m.Keys !! added { assert m - added == m; }
      }
    }
  }

  /** A record with a false `compacted` field of its own comes back without it. */
  lemma MarkerFieldIsLost(t: Tools, m: Record, limit: nat)
    requires Compacted in m && m[Compacted] == Flag(false) && GitStatusText in m
    ensures var back := Restore(Compact(t, Object(m), limit)); back.Object? && Compacted !in back.fields
  {
    RestoreGives(t, m, limit);
    assert GitStatusText in Body(m, Bulky);
  }

  lemma RestDropsText(t: Tools, m: Record, limit: nat)
    ensures var r := Rest(t, m, Bulky, limit);
      && GitStatusText !in r
      && (GitStatusText in m ==> Get(r, GitStatusLineCount) == Number(t.lineCount(m[GitStatusText])))
  {
  }

  lemma RestReduces(t: Tools, m: Record, limit: nat, k: Key)
    requires k in Bulky && k != GitStatusText && k in m
    ensures Get(Rest(t, m, Bulky, limit), k) == Reduced(t, k, m[k], limit)
  {
    assert k != GitStatusLineCount;
  }

  lemma RestKeeps(t: Tools, m: Record, limit: nat, k: Key)
    requires k !in Bulky && k != GitStatusLineCount
    ensures Get(Rest(t, m, Bulky, limit), k) == Get(m, k)
  {
    assert k != GitStatusText;
  }

  lemma MarkKeeps(r: Record, k: Key)
    requires k != Compacted && k != CompactionVersion
    ensures Get(Mark(r), k) == Get(r, k) && (k in Mark(r) <==> k in r)
  {
  }

  lemma CompactIsMarked(t: Tools, m: Record, limit: nat)
    requires !Truthy(Get(m, Compacted)) && Body(m, Bulky) != map[]
    ensures Compact(t, Object(m), limit).compact == Object(Mark(Rest(t, m, Bulky, limit)))
  {
  }

  /**
   What the compact record of a bulky one holds: no status text but its line count, summaries in place of
   the dirty list and the manifests.
   */
  lemma CompactIsReduced(t: Tools, m: Record, limit: nat)
    requires !Truthy(Get(m, Compacted)) && Body(m, Bulky) != map[]
    ensures var c := Compact(t, Object(m), limit).compact;
      && c.Object? && GitStatusText !in c.fields
      && (GitStatusText in m ==> Get(c.fields, GitStatusLineCount) == Number(t.lineCount(m[GitStatusText])))
    ensures var c := Compact(t, Object(m), limit).compact;
      && (RemainingDirtyFiles in m ==>
            Get(c.fields, RemainingDirtyFiles) == PathListValue(t, m[RemainingDirtyFiles], limit))
      && (StageManifestBefore in m ==>
            Get(c.fields, StageManifestBefore) == CompactManifest(t, m[StageManifestBefore], limit))
      && (StageManifestAfter in m ==>
            Get(c.fields, StageManifestAfter) == CompactManifest(t, m[StageManifestAfter], limit))
  {
    var r := Rest(t, m, Bulky, limit);
    CompactIsMarked(t, m, limit);
    RestDropsText(t, m, limit);
    MarkKeeps(r, GitStatusText);
    MarkKeeps(r, GitStatusLineCount);
    CompactReduces(t, m, limit, RemainingDirtyFiles);
    CompactReduces(t, m, limit, StageManifestBefore);
    CompactReduces(t, m, limit, StageManifestAfter);
  }

  lemma CompactReduces(t: Tools, m: Record, limit: nat, k: Key)
    requires k in Bulky && k != GitStatusText
    ensures k in m ==> Get(Mark(Rest(t, m, Bulky, limit)), k) == Reduced(t, k, m[k], limit)
  {
    MarkKeeps(Rest(t, m, Bulky, limit), k);
    if k in m { RestReduces(t, m, limit, k); }
  }

  /** Every other field is as it was; the markers say that the record is compact, and in which version. */
  lemma CompactKeepsTheRest(t: Tools, m: Record, limit: nat, k: Key)
    requires !Truthy(Get(m, Compacted)) && Body(m, Bulky) != map[]
    ensures var c := Compact(t, Object(m), limit).compact;
      && c.Object? && Get(c.fields, Compacted) == Flag(true) && Get(c.fields, CompactionVersion) == Number(1)
      && (k !in Bulky && k != GitStatusLineCount && k != Compacted && k != CompactionVersion ==>
            Get(c.fields, k) == Get(m, k))
  {
    CompactIsMarked(t, m, limit);
    if k !in Bulky && k != GitStatusLineCount && k != Compacted && k != CompactionVersion {
      RestKeeps(t, m, limit, k);
      MarkKeeps(Rest(t, m, Bulky, limit), k);
    }
  }

  /** A manifest not compacted yet becomes one without status text and tool-owned list, listing few files. */
  lemma ManifestIsReduced(t: Tools, m: Record, limit: nat)
    requires !Truthy(Get(m, Compacted))
    ensures var c := CompactManifest(t, Object(m), limit);
      && c.Object? && GitStatusText !in c.fields && ToolOwned !in c.fields
      && Get(c.fields, Files).Items? && |Get(c.fields, Files).items| <= limit
      && Get(c.fields, Untracked) == PathListValue(t, Get(m, Untracked), limit)
  {
    ManifestDropsBulk(t, m, limit);
    ManifestBalances(t, m, limit);
    var c, summary := CompactManifestFields(t, m, limit), SummaryOf(t, m, limit);
    assert Untracked in summary && c[Untracked] == summary[Untracked];
  }

  /** A second pass, under any limit, changes nothing and moves nothing out. */
  lemma CompactIdempotent(t: Tools, v: Value, limit: nat, again: nat)
    ensures Compact(t, Compact(t, v, limit).compact, again) == Parts(Compact(t, v, limit).compact, map[])
  {
    var p := Compact(t, v, limit);
    if p.body != map[] {
      assert Get(p.compact.fields, Compacted) == Flag(true);
    }
  }

  /** The body is complete and exact: every bulky field, as it was, and only those. */
  lemma BodyIsExact(t: Tools, m: Record, limit: nat, k: Key)
    requires !Truthy(Get(m, Compacted))
    ensures var body := Compact(t, Object(m), limit).body;
      (k in body <==> k in m && k in Bulky) && (k in body ==> body[k] == m[k])
  {
    var body := Body(m, Bulky);
    assert k in m && k in Bulky ==> k in body;
  }
}
