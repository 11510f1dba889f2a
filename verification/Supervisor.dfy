/**
 The supervisor's worker identities: the ids it makes up when it starts, reloads or replaces
 workers, as the strings it really uses, and the proof that none is ever issued twice.
 */
module Supervisor {
  import opened Basics

  const MAX_SUPERVISED_WORKERS := 32
  const MAX_REPLACEMENTS_PER_MAINTENANCE := 8

  function Digit(d: nat): char
    requires d < 10
  {
    ['0', '1', '2', '3', '4', '5', '6', '7', '8', '9'][d]
  }

  /** Decimal notation without leading zeros. */
  function Decimal(n: nat): (s: string)
    ensures s != [] && forall i :: 0 <= i < |s| ==> '0' <= s[i] <= '9'
  {
    if n < 10 then [Digit(n)] else Decimal(n / 10) + [Digit(n % 10)]
  }

  lemma DecimalShape(n: nat)
    ensures n < 10 ==> Decimal(n) == [Digit(n)]
    ensures n >= 10 ==> |Decimal(n)| >= 2 && Decimal(n)[..|Decimal(n)| - 1] == Decimal(n / 10)
    ensures n >= 10 ==> Decimal(n)[|Decimal(n)| - 1] == Digit(n % 10)
  {
  }

  lemma DigitIsInjective(a: nat, b: nat)
    requires a < 10 && b < 10 && Digit(a) == Digit(b)
    ensures a == b
  {
  }

  lemma {:induction false} DecimalIsInjective(m: nat, n: nat)
    requires Decimal(m) == Decimal(n)
    ensures m == n
    decreases m
  {
    DecimalShape(m);
    DecimalShape(n);
    if m < 10 {
      DigitIsInjective(m, n);
    } else {
      DecimalIsInjective(m / 10, n / 10);
      DigitIsInjective(m % 10, n % 10);
    }
  }

  const PREFIX := "hermes-worker-"

  /** `value.split('#')[0]`. */
  function BeforeHash(s: string): (r: string)
    ensures '#' !in r && |r| <= |s| && r == s[..|r|]
    ensures |r| < |s| ==> s[|r|] == '#'
  {
    if s == [] || s[0] == '#' then [] else [s[0]] + BeforeHash(s[1..])
  }

  /** Why an id was issued. */
  datatype Tag =
    | Started(index: nat)
    | Reloaded(index: nat, serial: nat)
    | Replaced(base: string, serial: nat)

  function Render(t: Tag): string
  {
    match t
    case Started(index) => PREFIX + Decimal(index + 1)
    case Reloaded(index, serial) => PREFIX + Decimal(index + 1) + "-g" + Decimal(serial)
    case Replaced(base, serial) => base + "#" + Decimal(serial)
  }

  ghost predicate Proper(t: Tag)
  {
    t.Replaced? ==> '#' !in t.base
  }

  /** Where a separator first occurs decides how a string splits. */
  lemma SplitsOnce(a: string, b: string, x: string, y: string, c: char)
    requires c !in a && c !in b && a + [c] + x == b + [c] + y
    ensures a == b && x == y
  {
    var s := a + [c] + x;
    assert s[|a|] == c && s[|b|] == c;
    assert forall k :: 0 <= k < |a| ==> s[k] == a[k];
    assert forall k :: 0 <= k < |b| ==> s[k] == b[k];
    assert |a| == |b|;
    assert s[..|a|] == a && s[..|b|] == b;
    assert s[|a| + 1..] == x && s[|b| + 1..] == y;
  }

  lemma HashMarksReplacements(t: Tag)
    ensures '#' in Render(t) <==> t.Replaced?
  {
    if t.Replaced? { assert Render(t)[|t.base|] == '#'; }
  }

  lemma ReloadedSplits(index: nat, serial: nat)
    ensures Render(Reloaded(index, serial))[|PREFIX|..] == Decimal(index + 1) + ['-'] + (['g'] + Decimal(serial))
  {
    assert Render(Reloaded(index, serial)) == PREFIX + (Decimal(index + 1) + ['-'] + (['g'] + Decimal(serial)));
  }

  /** Different reasons give different ids. */
  lemma RenderIsInjective(a: Tag, b: Tag)
    requires Proper(a) && Proper(b) && Render(a) == Render(b)
    ensures a == b
  {
    HashMarksReplacements(a);
    HashMarksReplacements(b);
    if a.Replaced? {
      SplitsOnce(a.base, b.base, Decimal(a.serial), Decimal(b.serial), '#');
      DecimalIsInjective(a.serial, b.serial);
    } else if a.Started? && b.Started? {
      assert Render(a)[|PREFIX|..] == Decimal(a.index + 1) && Render(b)[|PREFIX|..] == Decimal(b.index + 1);
      DecimalIsInjective(a.index + 1, b.index + 1);
    } else if a.Reloaded? && b.Reloaded? {
      ReloadedSplits(a.index, a.serial);
      ReloadedSplits(b.index, b.serial);
      SplitsOnce(Decimal(a.index + 1), Decimal(b.index + 1), ['g'] + Decimal(a.serial), ['g'] + Decimal(b.serial), '-');
      assert (['g'] + Decimal(a.serial))[1..] == Decimal(a.serial)
        && (['g'] + Decimal(b.serial))[1..] == Decimal(b.serial);
      DecimalIsInjective(a.index + 1, b.index + 1);
      DecimalIsInjective(a.serial, b.serial);
    } else if a.Started? {
      StartedIsNotReloaded(a.index, b.index, b.serial);
    } else {
      StartedIsNotReloaded(b.index, a.index, a.serial);
    }
  }

  lemma StartedIsNotReloaded(i: nat, j: nat, serial: nat)
    ensures Render(Started(i)) != Render(Reloaded(j, serial))
  {
    ReloadedSplits(j, serial);
    var tail := Render(Reloaded(j, serial))[|PREFIX|..];
    assert tail[|Decimal(j + 1)|] == '-';
    assert Render(Started(i))[|PREFIX|..] == Decimal(i + 1);
  }

  ghost predicate AllDistinct(ids: seq<string>)
  {
    forall i, j :: 0 <= i < j < |ids| ==> ids[i] != ids[j]
  }

  ghost predicate Below(t: Tag, serial: nat)
  {
    match t
    case Started(_) => true
    case Reloaded(_, s) => 1 <= s <= serial
    case Replaced(_, s) => 1 <= s <= serial
  }

  /** Tags are proper, pairwise different, and none uses a serial that is still to come. */
  ghost predicate Issued(tags: seq<Tag>, serial: nat)
  {
    && (forall i :: 0 <= i < |tags| ==> Proper(tags[i]) && Below(tags[i], serial))
    && (forall i, j :: 0 <= i < j < |tags| ==> tags[i] != tags[j])
  }

  lemma IssuedMore(tags: seq<Tag>, serial: nat, t: Tag)
    requires Issued(tags, serial) && Proper(t) && Below(t, serial) && t !in tags
    ensures Issued(tags + [t], serial)
  {
  }

  lemma DistinctTagsDistinctIds(tags: seq<Tag>, ids: seq<string>, serial: nat)
    requires Issued(tags, serial) && |ids| == |tags| && forall i :: 0 <= i < |tags| ==> ids[i] == Render(tags[i])
    ensures AllDistinct(ids)
  {
    forall i, j | 0 <= i < j < |ids| ensures ids[i] != ids[j] {
      if Render(tags[i]) == Render(tags[j]) { RenderIsInjective(tags[i], tags[j]); }
    }
  }

  /** What the runtime reports about one slot. */
  datatype SlotState = SlotState(id: string, ready: bool, leased: bool)

  /** The slots of the first `n` whose worker is dead and not leased, in order. */
  function Dead(states: seq<SlotState>, n: nat): seq<nat>
    requires n <= |states|
  {
    if n == 0 then []
    else Dead(states, n - 1) + (if !states[n - 1].ready && !states[n - 1].leased then [n - 1] else [])
  }

  /** These are all of them, each once. */
  lemma {:induction false} DeadMeans(states: seq<SlotState>, n: nat)
    requires n <= |states|
    ensures forall k :: 0 <= k < |Dead(states, n)| ==>
      Dead(states, n)[k] < n && !states[Dead(states, n)[k]].ready && !states[Dead(states, n)[k]].leased
    ensures forall i :: 0 <= i < n && !states[i].ready && !states[i].leased ==> i in Dead(states, n)
    ensures forall k, l :: 0 <= k < l < |Dead(states, n)| ==> Dead(states, n)[k] < Dead(states, n)[l]
  {
    if n > 0 { DeadMeans(states, n - 1); }
  }

  lemma {:induction false} DeadGrows(states: seq<SlotState>, m: nat, n: nat)
    requires m <= n <= |states|
    ensures Dead(states, m) <= Dead(states, n)
    decreases n - m
  {
    if m < n { DeadGrows(states, m + 1, n); }
  }

  /**
   The supervisor within one started lifetime. `issued` and `tags` are history: every id it passed
   to its worker factory, and why.
   */
  class SupervisorObject {
    var started: bool
    var serial: nat
    var replacements: nat
    var issued: seq<string>
    ghost var tags: seq<Tag>

    ghost predicate Valid()
      reads this
    {
      && |issued| == |tags|
      && (forall i :: 0 <= i < |tags| ==> issued[i] == Render(tags[i]))
      && Issued(tags, serial)
      && (!started ==> issued == [])
    }

    constructor ()
      ensures Valid() && !started
    {
      started, serial, replacements, issued, tags := false, 0, 0, [], [];
    }

    /**
     `registries` are the registry identities of the workers that come up before the factory raises, or
     of all of them; `accepted` is whether the runtime's constructor takes them.
     */
    method Start(workerCount: nat, registries: seq<Token>, accepted: bool) returns (ok: bool)
      requires Valid() && 1 <= workerCount <= MAX_SUPERVISED_WORKERS && |registries| <= workerCount
      modifies this
      ensures Valid() && serial == old(serial)
      ensures ok <==> !old(started) && |registries| == workerCount && accepted && forall i :: 0 <= i < workerCount ==>
        registries[i] == registries[0]
      ensures ok ==> started && |issued| == workerCount && forall i :: 0 <= i < workerCount ==>
        issued[i] == PREFIX + Decimal(i + 1)
      ensures !ok ==> started == old(started) && issued == old(issued)
    {
      if started || |registries| < workerCount { return false; }
      for i := 1 to workerCount
        invariant forall j :: 0 <= j < i ==> registries[j] == registries[0]
      {
        if registries[i] != registries[0] { return false; }
      }
      if !accepted { return false; }
      started := true;
      issued, tags := [], [];
      for index := 0 to workerCount
        invariant started && serial == old(serial) && |issued| == |tags| == index
        invariant forall i :: 0 <= i < index ==> tags[i] == Started(i) && issued[i] == PREFIX + Decimal(i + 1)
      {
        issued := issued + [PREFIX + Decimal(index + 1)];
        tags := tags + [Started(index)];
      }
      return true;
    }

    /** A new serial, then one id per worker of the candidate generation. */
    method ReloadRegistry(count: nat)
      requires Valid() && started && 1 <= count <= MAX_SUPERVISED_WORKERS
      modifies this
      ensures Valid() && started && serial == old(serial) + 1
      ensures |issued| == |old(issued)| + count && old(issued) <= issued && AllDistinct(issued)
    {
      serial := serial + 1;
      for index := 0 to count
        invariant started && serial == old(serial) + 1 && |issued| == |tags| == |old(tags)| + index
          && old(issued) <= issued
        invariant forall i :: 0 <= i < |tags| ==> issued[i] == Render(tags[i])
        invariant Issued(tags, serial)
        invariant forall i :: 0 <= i < |tags| && tags[i].Reloaded? && tags[i].serial == serial ==> tags[i].index < index
        invariant forall i :: 0 <= i < |tags| && tags[i].Replaced? ==> tags[i].serial < serial
      {
        IssuedMore(tags, serial, Reloaded(index, serial));
        issued := issued + [PREFIX + Decimal(index + 1) + "-g" + Decimal(serial)];
        tags := tags + [Reloaded(index, serial)];
      }
      DistinctTagsDistinctIds(tags, issued, serial);
    }

    /**
     One replacement per dead, unleased slot, at most eight; each gets a fresh id. `succeeds` is
     whether launching and swapping in the k-th replacement goes through; the first failure ends the pass.
     The answer gives the position of each replaced slot and its new id: the first dead slots in order,
     all of them unless the bound is reached or a replacement fails.
     */
    method RestoreCapacity(states: seq<SlotState>, succeeds: nat -> bool) returns (places: seq<nat>, ids: seq<string>)
      requires Valid() && started
      modifies this
      ensures Valid() && started && old(issued) + ids <= issued && AllDistinct(issued)
      ensures |ids| == |places| <= MAX_REPLACEMENTS_PER_MAINTENANCE && replacements == old(replacements) + |places|
      ensures places <= Dead(states, |states|) && forall k :: 0 <= k < |places| ==> succeeds(k)
      ensures |places| < |Dead(states, |states|)| ==>
        |places| == MAX_REPLACEMENTS_PER_MAINTENANCE || !succeeds(|places|)
    {
      places, ids := [], [];
      for i := 0 to |states|
        invariant Valid() && started && issued == old(issued) + ids
        invariant |ids| == |places| <= MAX_REPLACEMENTS_PER_MAINTENANCE && replacements == old(replacements) + |places|
        invariant places == Dead(states, i) && forall k :: 0 <= k < |places| ==> succeeds(k)
      {
        DeadGrows(states, i, |states|);
        if !states[i].ready && !states[i].leased {
          if |places| >= MAX_REPLACEMENTS_PER_MAINTENANCE { break; }
          var replacement := Issue(states[i].id);
          if !succeeds(|places|) { break; }
          replacements := replacements + 1;
          places, ids := places + [i], ids + [replacement];
        }
      }
      DistinctTagsDistinctIds(tags, issued, serial);
    }

    /** Issue one replacement id: it has never been issued before. */
    method Issue(id: string) returns (replacement: string)
      requires Valid() && started
      modifies this`serial, this`issued, this`tags
      ensures Valid() && serial == old(serial) + 1
      ensures replacement == BeforeHash(id) + "#" + Decimal(serial)
      ensures issued == old(issued) + [replacement] && replacement !in old(issued) && AllDistinct(issued)
    {
      serial := serial + 1;
      replacement := BeforeHash(id) + "#" + Decimal(serial);
      issued := issued + [replacement];
      tags := tags + [Replaced(BeforeHash(id), serial)];
      DistinctTagsDistinctIds(tags, issued, serial);
      assert forall i :: 0 <= i < |old(issued)| ==> issued[i] == old(issued)[i] && issued[i] != issued[|old(issued)|];
    }
  }
}
