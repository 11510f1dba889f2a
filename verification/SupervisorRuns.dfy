/**
 The supervisor's threads interleaved: every request and cancellation thread may restore capacity while
 another reloads the registry. A serial is taken under the lifecycle lock; the ids made from it are
 handed to the worker factory later, one at a time, with anything in between.
 */
module SupervisorRuns {
  import opened Supervisor

  datatype Thread =
    | Reloading(serial: nat, next: nat, count: nat)
    | Replacing(base: string, serial: nat)
    | Over

  /** `tags` is what was handed to the factory in the present lifetime, in order. */
  datatype State = State(started: bool, serial: nat, tags: seq<Tag>, threads: seq<Thread>)

  datatype Action =
    | StartUp(count: nat)
    | Close
    | TakeReloadSerial(count: nat)
    | LaunchForReload(t: nat)
    | TakeReplacementSerial(worker: string)
    | LaunchReplacement(t: nat)
    | GiveUp(t: nat)

  predicate Enabled(s: State, a: Action)
  {
    match a
    case StartUp(_) => !s.started
    case Close => s.started
    case TakeReloadSerial(_) => true
    case LaunchForReload(t) => t < |s.threads| && s.threads[t].Reloading? && s.threads[t].next < s.threads[t].count
    case TakeReplacementSerial(_) => true
    case LaunchReplacement(t) => t < |s.threads| && s.threads[t].Replacing?
    case GiveUp(t) => t < |s.threads|
  }

  function StartTags(count: nat): (r: seq<Tag>)
    ensures |r| == count && forall i :: 0 <= i < count ==> r[i] == Started(i)
  {
    seq(count, i requires 0 <= i < count => Started(i))
  }

  function Step(s: State, a: Action): State
    requires Enabled(s, a)
  {
    match a
    case StartUp(count) => s.(started := true, tags := StartTags(count))
    case Close => s.(started := false)
    case TakeReloadSerial(count) => s.(serial := s.serial + 1,
      threads := s.threads + [Reloading(s.serial + 1, 0, count)])
    case LaunchForReload(t) =>
      var x := s.threads[t];
      s.(tags := s.tags + [Reloaded(x.next, x.serial)], threads := s.threads[t := x.(next := x.next + 1)])
    case TakeReplacementSerial(worker) =>
      s.(serial := s.serial + 1, threads := s.threads + [Replacing(BeforeHash(worker), s.serial + 1)])
    case LaunchReplacement(t) =>
      s.(tags := s.tags + [Replaced(s.threads[t].base, s.threads[t].serial)], threads := s.threads[t := Over])
    case GiveUp(t) => s.(threads := s.threads[t := Over])
  }

  // ------------------------------------------------------------ the invariant

  /** What a thread may still issue has not been issued. */
  ghost predicate Ahead(tags: seq<Tag>, x: Thread)
  {
    match x
    case Reloading(serial, next, _) =>
      forall i :: 0 <= i < |tags| ==>
        && (tags[i].Reloaded? && tags[i].serial == serial ==> tags[i].index < next)
        && (tags[i].Replaced? ==> tags[i].serial != serial)
    case Replacing(base, serial) => '#' !in base && forall i :: 0 <= i < |tags| ==>
      tags[i].Started? || tags[i].serial != serial
    case Over => true
  }

  predicate Owns(x: Thread, serial: nat)
  {
    !x.Over? && x.serial == serial
  }

  /** Every serial is in one thread's hands at most, and none is still to come. */
  ghost predicate SerialsApart(threads: seq<Thread>, serial: nat)
  {
    && (forall t :: 0 <= t < |threads| && !threads[t].Over? ==> 1 <= threads[t].serial <= serial)
    && (forall t, u :: 0 <= t < u < |threads| && !threads[t].Over? ==> !Owns(threads[u], threads[t].serial))
  }

  ghost predicate Inv(s: State)
  {
    Issued(s.tags, s.serial) && SerialsApart(s.threads, s.serial) && forall t :: 0 <= t < |s.threads| ==>
      Ahead(s.tags, s.threads[t])
  }

  /** A tag that one thread issues is behind no other thread. */
  lemma OthersStayAhead(s: State, t: nat, tag: Tag)
    requires Inv(s) && t < |s.threads| && !s.threads[t].Over? && !tag.Started? && tag.serial == s.threads[t].serial
    ensures forall u :: 0 <= u < |s.threads| && u != t ==> Ahead(s.tags + [tag], s.threads[u])
  {
    forall u | 0 <= u < |s.threads| && u != t ensures Ahead(s.tags + [tag], s.threads[u]) {
      assert Ahead(s.tags, s.threads[u]);
      assert !s.threads[u].Over? ==> s.threads[u].serial != tag.serial;
    }
  }

  lemma ReloadLaunchKeeps(s: State, t: nat)
    requires Inv(s) && Enabled(s, LaunchForReload(t))
    ensures Inv(Step(s, LaunchForReload(t)))
  {
    var x := s.threads[t];
    var tag := Reloaded(x.next, x.serial);
    assert Ahead(s.tags, x);
    IssuedMore(s.tags, s.serial, tag);
    OthersStayAhead(s, t, tag);
  }

  lemma ReplacementLaunchKeeps(s: State, t: nat)
    requires Inv(s) && Enabled(s, LaunchReplacement(t))
    ensures Inv(Step(s, LaunchReplacement(t)))
  {
    var x := s.threads[t];
    var tag := Replaced(x.base, x.serial);
    assert Ahead(s.tags, x);
    IssuedMore(s.tags, s.serial, tag);
    OthersStayAhead(s, t, tag);
  }

  /** A thread that has just taken a serial is ahead of everything issued. */
  lemma NewSerialKeeps(s: State, x: Thread)
    requires Inv(s) && !x.Over? && x.serial == s.serial + 1 && (x.Replacing? ==> '#' !in x.base)
    ensures Inv(s.(serial := s.serial + 1, threads := s.threads + [x]))
  {
    assert forall i :: 0 <= i < |s.tags| ==> Proper(s.tags[i]) && Below(s.tags[i], s.serial);
    assert Issued(s.tags, s.serial + 1);
    assert Ahead(s.tags, x);
  }

  lemma StartUpKeeps(s: State, count: nat)
    requires Inv(s)
    ensures Inv(s.(started := true, tags := StartTags(count)))
  {
    forall t | 0 <= t < |s.threads| ensures Ahead(StartTags(count), s.threads[t]) {
      assert Ahead(s.tags, s.threads[t]);
    }
  }

  lemma GiveUpKeeps(s: State, t: nat)
    requires Inv(s) && t < |s.threads|
    ensures Inv(s.(threads := s.threads[t := Over]))
  {
  }

  lemma StepKeeps(s: State, a: Action)
    requires Inv(s) && Enabled(s, a)
    ensures Inv(Step(s, a))
  {
    match a
    case StartUp(count) => StartUpKeeps(s, count);
    case Close =>
    case TakeReloadSerial(count) => NewSerialKeeps(s, Reloading(s.serial + 1, 0, count));
    case LaunchForReload(t) => ReloadLaunchKeeps(s, t);
    case TakeReplacementSerial(worker) => NewSerialKeeps(s, Replacing(BeforeHash(worker), s.serial + 1));
    case LaunchReplacement(t) => ReplacementLaunchKeeps(s, t);
    case GiveUp(t) => GiveUpKeeps(s, t);
  }

  // ------------------------------------------------------------ over every run

  ghost predicate IsRun(states: seq<State>, actions: seq<Action>)
  {
    && |states| == |actions| + 1
    && states[0] == State(false, 0, [], [])
    && forall i :: 0 <= i < |actions| ==> Enabled(states[i], actions[i]) && states[i + 1] == Step(states[i], actions[i])
  }

  lemma {:induction false} RunIsIssued(states: seq<State>, actions: seq<Action>, n: nat)
    requires IsRun(states, actions) && n < |states|
    ensures Inv(states[n])
  {
    if n > 0 {
      RunIsIssued(states, actions, n - 1);
      StepKeeps(states[n - 1], actions[n - 1]);
    }
  }

  /** However reloads and replacements interleave, no id is handed to the factory twice in one lifetime. */
  lemma IdsNeverRepeat(states: seq<State>, actions: seq<Action>, n: nat, i: nat, j: nat)
    requires IsRun(states, actions) && n < |states| && i < j < |states[n].tags|
    ensures Render(states[n].tags[i]) != Render(states[n].tags[j])
  {
    RunIsIssued(states, actions, n);
    var tags := states[n].tags;
    assert tags[i] != tags[j] && Proper(tags[i]) && Proper(tags[j]);
    if Render(tags[i]) == Render(tags[j]) { RenderIsInjective(tags[i], tags[j]); }
  }
}
