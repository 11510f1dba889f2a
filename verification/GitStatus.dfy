/**
 Git's NUL-separated porcelain v1 status: what Git prints, the parser that reads it back, and the
 selection of the paths a commit has to stage. Paths are the raw bytes; the source's
 surrogate-escape decoding loses nothing.
 */
module GitStatus {
  import opened Basics

  type Byte = b: nat | b < 256
  type Path = seq<Byte>

  const SPACE: Byte := 32
  const RENAMED: Byte := 82
  const COPIED: Byte := 67

  datatype Entry = Entry(index: Byte, worktree: Byte, path: Path, source: Option<Path>)

  predicate HasSource(index: Byte, worktree: Byte)
  {
    index == RENAMED || index == COPIED || worktree == RENAMED || worktree == COPIED
  }

  // ------------------------------------------------------------ printing

  function Field(e: Entry): Path
  {
    [e.index, e.worktree, SPACE] + e.path
  }

  function Fields(entries: seq<Entry>): seq<Path>
  {
    if entries == [] then []
    else (if entries[0].source.Some? then [Field(entries[0]), entries[0].source.value]
      else [Field(entries[0])]) + Fields(entries[1..])
  }

  /** Every field followed by a NUL. */
  function Join(fields: seq<Path>): seq<Byte>
  {
    if fields == [] then [] else fields[0] + [0] + Join(fields[1..])
  }

  /** What Git can report: no NUL anywhere, and a source path exactly for renames and copies. */
  ghost predicate Printable(e: Entry)
  {
    && e.index != 0 && e.worktree != 0 && 0 !in e.path
    && (e.source.Some? <==> HasSource(e.index, e.worktree))
    && (e.source.Some? ==> 0 !in e.source.value)
  }

  // ------------------------------------------------------------ parsing

  /** `output.split(b"\0")`. */
  function Split(bytes: seq<Byte>): (r: seq<Path>)
    ensures r != []
  {
    if bytes == [] then [[]]
    else
      var rest := Split(bytes[1..]);
      if bytes[0] == 0 then [[]] + rest else [[bytes[0]] + rest[0]] + rest[1..]
  }

  function DropTrailingEmpty(fields: seq<Path>): seq<Path>
  {
    if fields != [] && fields[|fields| - 1] == [] then fields[..|fields| - 1] else fields
  }

  function ParseFields(fields: seq<Path>): seq<Entry>
    decreases |fields|
  {
    if fields == [] then []
    else if |fields[0]| < 3 then ParseFields(fields[1..])
    else
      var f := fields[0];
      if HasSource(f[0], f[1]) && |fields| > 1
        then [Entry(f[0], f[1], f[3..], Some(fields[1]))] + ParseFields(fields[2..])
      else [Entry(f[0], f[1], f[3..], None)] + ParseFields(fields[1..])
  }

  function Parse(bytes: seq<Byte>): seq<Entry>
  {
    ParseFields(DropTrailingEmpty(Split(bytes)))
  }

  /** The parser's loop over the fields. */
  method ParseEntries(bytes: seq<Byte>) returns (entries: seq<Entry>)
    ensures entries == Parse(bytes)
  {
    var fields := DropTrailingEmpty(Split(bytes));
    entries := [];
    var index := 0;
    while index < |fields|
      invariant index <= |fields|
      invariant entries + ParseFields(fields[index..]) == ParseFields(fields)
    {
      var field := fields[index];
      ghost var rest := fields[index..];
      assert rest[0] == field && rest[1..] == fields[index + 1..];
      index := index + 1;
      if |field| < 3 { continue; }
      var entry := Entry(field[0], field[1], field[3..], None);
      if HasSource(field[0], field[1]) && index < |fields| {
        entry := entry.(source := Some(fields[index]));
        assert rest[1] == fields[index] && rest[2..] == fields[index + 1..];
        index := index + 1;
      }
      entries := entries + [entry];
    }
    assert fields[index..] == [];
  }

  // ------------------------------------------------------------ round trip

  lemma {:induction false} SplitField(field: Path, rest: seq<Byte>)
    requires 0 !in field
    ensures Split(field + [0] + rest) == [field] + Split(rest)
  {
    if field == [] {
      assert field + [0] + rest == [0] + rest;
      assert ([0] + rest)[1..] == rest;
    } else {
      var whole := field + [0] + rest;
      assert whole[1..] == field[1..] + [0] + rest;
      SplitField(field[1..], rest);
      assert [field[0]] + field[1..] == field;
      assert Split(whole)[1..] == Split(rest);
    }
  }

  ghost predicate NulFree(fields: seq<Path>)
  {
    forall i :: 0 <= i < |fields| ==> 0 !in fields[i]
  }

  lemma {:induction false} SplitJoin(fields: seq<Path>)
    requires NulFree(fields)
    ensures Split(Join(fields)) == fields + [[]]
  {
    if fields != [] {
      SplitField(fields[0], Join(fields[1..]));
      SplitJoin(fields[1..]);
      assert [fields[0]] + (fields[1..] + [[]]) == fields + [[]];
    }
  }

  lemma {:induction false} FieldsAreNulFree(entries: seq<Entry>)
    requires forall i :: 0 <= i < |entries| ==> Printable(entries[i])
    ensures NulFree(Fields(entries))
  {
    if entries != [] {
      FieldsAreNulFree(entries[1..]);
      assert Printable(entries[0]);
    }
  }

  lemma {:induction false} ParseFieldsOfPrinted(entries: seq<Entry>)
    requires forall i :: 0 <= i < |entries| ==> Printable(entries[i])
    ensures ParseFields(Fields(entries)) == entries
  {
    if entries != [] {
      var e := entries[0];
      var fields := Fields(entries);
      assert Printable(e);
      assert Field(e)[3..] == e.path && fields[0] == Field(e);
      ParseFieldsOfPrinted(entries[1..]);
      if e.source.Some? {
        assert fields[1] == e.source.value && fields[2..] == Fields(entries[1..]);
      } else {
        assert fields[1..] == Fields(entries[1..]);
      }
      assert [e] + entries[1..] == entries;
    }
  }

  lemma DropTrailing(fields: seq<Path>)
    ensures DropTrailingEmpty(fields + [[]]) == fields
  {
    var more := fields + [[]];
    assert more[|more| - 1] == [] && more[..|more| - 1] == fields;
  }

  /** Whatever status Git prints, the parser reads back exactly that list. */
  lemma RoundTrip(entries: seq<Entry>)
    requires forall i :: 0 <= i < |entries| ==> Printable(entries[i])
    ensures Parse(Join(Fields(entries))) == entries
  {
    FieldsAreNulFree(entries);
    SplitJoin(Fields(entries));
    DropTrailing(Fields(entries));
    ParseFieldsOfPrinted(entries);
  }

  // ------------------------------------------------------------ selecting what to stage

  function SourceOf(e: Entry): Path
  {
    if e.source.Some? then e.source.value else []
  }

  predicate Touched(e: Entry, selected: set<Path>)
  {
    e.path in selected || SourceOf(e) in selected
  }

  /** `p` is one of the two ends of entry `e`. */
  predicate EndOf(e: Entry, p: Path)
  {
    p != [] && (p == e.path || p == SourceOf(e))
  }

  ghost predicate Selects(entries: seq<Entry>, selected: set<Path>, p: Path)
  {
    exists i :: 0 <= i < |entries| && Touched(entries[i], selected) && EndOf(entries[i], p)
  }

  /**
   `_finalize_stage_paths`: both ends of every touched entry, each path once, and nothing that only
   untouched entries mention.
   */
  method FinalizeStagePaths(entries: seq<Entry>, selected: set<Path>) returns (stage: seq<Path>)
    ensures selected == {} ==> stage == []
    ensures selected != {} ==> forall p :: p in stage <==> Selects(entries, selected, p)
    ensures forall i, j :: 0 <= i < j < |stage| ==> stage[i] != stage[j]
  {
    stage := [];
    if selected == {} { return; }
    var seen: set<Path> := {};
    for k := 0 to |entries|
      invariant forall p :: p in stage <==> p in seen
      invariant forall p :: p in seen <==> Selects(entries[..k], selected, p)
      invariant forall i, j :: 0 <= i < j < |stage| ==> stage[i] != stage[j]
    {
      var e := entries[k];
      SelectsNext(entries, selected, k);
      if e.path in selected || SourceOf(e) in selected {
        if e.path != [] && e.path !in seen {
          seen := seen + {e.path};
          stage := stage + [e.path];
        }
        var source := SourceOf(e);
        if source != [] && source !in seen {
          seen := seen + {source};
          stage := stage + [source];
        }
      }
    }
    assert entries[..|entries|] == entries;
  }

  lemma SelectsNext(entries: seq<Entry>, selected: set<Path>, k: nat)
    requires k < |entries|
    ensures forall p :: Selects(entries[..k + 1], selected, p) <==>
                        Selects(entries[..k], selected, p) || (Touched(entries[k], selected) && EndOf(entries[k], p))
  {
    var more, fewer := entries[..k + 1], entries[..k];
    forall p ensures Selects(more, selected, p) <==>
      Selects(fewer, selected, p) || (Touched(entries[k], selected) && EndOf(entries[k], p)) {
      if Selects(more, selected, p) {
        var i :| 0 <= i < |more| && Touched(more[i], selected) && EndOf(more[i], p);
        if i < k { assert fewer[i] == more[i]; }
      }
      if Selects(fewer, selected, p) {
        var i :| 0 <= i < |fewer| && Touched(fewer[i], selected) && EndOf(fewer[i], p);
        assert more[i] == fewer[i];
      }
      if Touched(entries[k], selected) && EndOf(entries[k], p) { assert more[k] == entries[k]; }
    }
  }
}
