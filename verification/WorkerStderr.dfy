/** The bounded stderr buffer of a persistent worker: whole chunks, oldest dropped first. */
module WorkerStderr {

  type Chunk = seq<bv8>

  function Total(chunks: seq<Chunk>): nat
  {
    if chunks == [] then 0 else |chunks[0]| + Total(chunks[1..])
  }

  lemma {:induction false} TotalOfConcat(a: seq<Chunk>, b: seq<Chunk>)
    ensures Total(a + b) == Total(a) + Total(b)
  {
    if a == [] {
      assert a + b == b;
    } else {
      TotalOfConcat(a[1..], b);
      assert (a + b)[1..] == a[1..] + b;
    }
  }

  /** Drop chunks from the front until the rest fits. */
  function Kept(all: seq<Chunk>, limit: nat): seq<Chunk>
  {
    if Total(all) <= limit then all else Kept(all[1..], limit)
  }

  /** `kept` is the longest suffix of whole chunks that fits: every longer suffix is too big. */
  ghost predicate LongestFittingSuffix(kept: seq<Chunk>, all: seq<Chunk>, limit: nat)
  {
    && |kept| <= |all| && kept == all[|all| - |kept|..]
    && Total(kept) <= limit
    && forall k :: 0 <= k < |all| - |kept| ==> Total(all[k..]) > limit
  }

  lemma {:induction false} KeptIsLongest(all: seq<Chunk>, limit: nat)
    ensures LongestFittingSuffix(Kept(all, limit), all, limit)
  {
    if Total(all) > limit {
      var rest := all[1..];
      KeptIsLongest(rest, limit);
      var kept := Kept(all, limit);
      assert kept == rest[|rest| - |kept|..] == all[|all| - |kept|..];
      forall k | 0 <= k < |all| - |kept| ensures Total(all[k..]) > limit {
        if k == 0 { assert all[0..] == all; } else { assert all[k..] == rest[k - 1..]; }
      }
    }
  }

  /** Trimming after every append keeps as much as trimming once at the end. */
  lemma {:induction false} TrimAsYouGo(all: seq<Chunk>, data: Chunk, limit: nat)
    ensures Kept(Kept(all, limit) + [data], limit) == Kept(all + [data], limit)
  {
    if Total(all) > limit {
      TrimAsYouGo(all[1..], data, limit);
      TotalOfConcat(all, [data]);
      assert (all + [data])[1..] == all[1..] + [data];
    }
  }

  /** `history` is every chunk ever appended. */
  class StderrBuffer {
    const limit: int
    var chunks: seq<Chunk>
    var size: int
    ghost var history: seq<Chunk>

    ghost predicate Valid()
      reads this
    {
      && size == Total(chunks)
      && if limit <= 0 then chunks == [] && history == [] else chunks == Kept(history, limit)
    }

    constructor (limit: int)
      ensures Valid() && this.limit == limit && history == []
    {
      this.limit := limit;
      chunks, size, history := [], 0, [];
    }

    /** The partial trim after the loop is dead code: the loop only stops when the rest fits or nothing is left. */
    method Append(data: Chunk)
      requires Valid()
      modifies this
      ensures Valid()
      ensures limit <= 0 ==> chunks == old(chunks) && history == old(history)
      ensures limit > 0 ==> history == old(history) + [data] && LongestFittingSuffix(chunks, history, limit)
      ensures size == Total(chunks) && (limit > 0 ==> size <= limit)
    {
      if limit <= 0 { return; }
      TotalOfConcat(chunks, [data]);
      TrimAsYouGo(history, data, limit);
      chunks := chunks + [data];
      size := size + |data|;
      history := history + [data];
      while size > limit && chunks != []
        invariant size == Total(chunks)
        invariant Kept(chunks, limit) == Kept(history, limit)
        invariant history == old(history) + [data]
        decreases |chunks|
      {
        var removed := chunks[0];
        chunks := chunks[1..];
        size := size - |removed|;
      }
      if size > limit && chunks != [] {
        assert false;
      }
      KeptIsLongest(history, limit);
    }
  }
}
