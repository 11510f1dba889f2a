/**
 Tool concurrency and rate limits. A tool enters every rule that matches it, in rule order, waits
 where a rule is full or too recent, and gives everything back in reverse order when it ends or
 times out. Time is a real number; any number of callers interleave.
 */
module ToolConcurrency {
  import opened Basics

  datatype Rule = Rule(limit: Option<nat>, interval: real)

  datatype RuleState = RuleState(active: int, lastStart: Option<real>)

  /** The wait condition inside `_enter`, evaluated at `now`. */
  predicate CanEnter(rule: Rule, state: RuleState, now: real)
  {
    && !(rule.limit.Some? && state.active >= rule.limit.value)
    && (rule.interval > 0.0 && state.lastStart.Some? ==> state.lastStart.value + rule.interval - now <= 0.0)
  }

  function Entered(state: RuleState, start: real): RuleState
  {
    RuleState(state.active + 1, Some(start))
  }

  datatype Phase = Entering | Holding | Leaving | Gone

  /** One `acquire` block: the rules that match, of which the first `held` are acquired. */
  datatype Caller = Caller(matching: seq<nat>, held: nat, phase: Phase)

  predicate Holds(c: Caller, r: nat)
  {
    c.held <= |c.matching| && r in c.matching[..c.held]
  }

  /** `starts` is history: every recorded start of every rule. */
  datatype Policy = Policy(
    rules: seq<Rule>,
    states: seq<RuleState>,
    starts: seq<seq<real>>,
    callers: seq<Caller>,
    clock: real)

  datatype Action =
    | Arrive(matches: set<nat>)
    | Enter(c: nat, delay: real)   // checked at the clock, recorded `delay` later, under one lock
    | TimeOut(c: nat)
    | Begin(c: nat)
    | End(c: nat)
    | GiveBack(c: nat)
    | Tick(delay: real)

  /** `_matching_states`: the matching rules in declaration order. */
  function Matching(matches: set<nat>, from: nat, count: nat): (r: seq<nat>)
    requires from <= count
    ensures forall i :: 0 <= i < |r| ==> from <= r[i] < count && r[i] in matches
    ensures forall i, j :: 0 <= i < j < |r| ==> r[i] < r[j]
    ensures forall x :: from <= x < count && x in matches ==> x in r
    decreases count - from
  {
    if from == count then []
    else
      var rest := Matching(matches, from + 1, count);
      if from in matches then [from] + rest else rest
  }

  ghost predicate Waiting(p: Policy, c: nat)
  {
    c < |p.callers| && p.callers[c].phase.Entering? && p.callers[c].held < |p.callers[c].matching|
    && p.callers[c].matching[p.callers[c].held] < |p.rules| == |p.states| == |p.starts|
  }

  /** The rule a waiting caller is queued at. */
  ghost function Target(p: Policy, c: nat): nat
    requires Waiting(p, c)
  {
    p.callers[c].matching[p.callers[c].held]
  }

  ghost predicate Enabled(p: Policy, a: Action)
  {
    match a
    case Arrive(_) => true
    case Enter(c, delay) => delay >= 0.0 && Waiting(p, c) && CanEnter(p.rules[Target(p, c)], p.states[Target(p, c)],
      p.clock)
    case TimeOut(c) => Waiting(p, c) && !CanEnter(p.rules[Target(p, c)], p.states[Target(p, c)], p.clock)
    case Begin(c) => c < |p.callers| && p.callers[c].phase.Entering? && p.callers[c].held == |p.callers[c].matching|
    case End(c) => c < |p.callers| && p.callers[c].phase.Holding?
    case GiveBack(c) =>
      c < |p.callers| && p.callers[c].phase.Leaving? && p.callers[c].held <= |p.callers[c].matching|
      && (p.callers[c].held > 0 ==> p.callers[c].matching[p.callers[c].held - 1] < |p.states|)
    case Tick(delay) => delay >= 0.0
  }

  ghost function SetCaller(p: Policy, c: nat, x: Caller): Policy
    requires c < |p.callers|
  {
    p.(callers := p.callers[c := x])
  }

  ghost function EnterStep(p: Policy, c: nat, delay: real): Policy
    requires Enabled(p, Enter(c, delay))
  {
    var r := Target(p, c);
    var start := p.clock + delay;
    SetCaller(p, c, p.callers[c].(held := p.callers[c].held + 1))
    .(states := p.states[r := Entered(p.states[r], start)], starts := p.starts[r := p.starts[r] + [start]],
      clock := start)
  }

  ghost function GiveBackStep(p: Policy, c: nat): Policy
    requires Enabled(p, GiveBack(c))
  {
    var x := p.callers[c];
    if x.held == 0 then SetCaller(p, c, x.(phase := Gone))
    else
      var r := x.matching[x.held - 1];
      SetCaller(p, c, x.(held := x.held - 1))
      .(states := p.states[r := p.states[r].(active := p.states[r].active - 1)])
  }

  ghost function Step(p: Policy, a: Action): Policy
    requires Enabled(p, a)
  {
    match a
    case Arrive(matches) => p.(callers := p.callers + [Caller(Matching(matches, 0, |p.rules|), 0, Entering)])
    case Enter(c, delay) => EnterStep(p, c, delay)
    case TimeOut(c) => SetCaller(p, c, p.callers[c].(phase := Leaving))
    case Begin(c) => SetCaller(p, c, p.callers[c].(phase := Holding))
    case End(c) => SetCaller(p, c, p.callers[c].(phase := Leaving))
    case GiveBack(c) => GiveBackStep(p, c)
    case Tick(delay) => p.(clock := p.clock + delay)
  }

  /** Rules as their constructor admits them: a limit is positive, an interval is between 0 and an hour. */
  predicate ValidRule(r: Rule)
  {
    (r.limit.Some? ==> r.limit.value >= 1) && 0.0 <= r.interval <= 3600.0
  }

  ghost predicate Initial(p: Policy)
  {
    && (forall r :: 0 <= r < |p.rules| ==> ValidRule(p.rules[r]))
    && |p.states| == |p.rules| == |p.starts| && p.callers == []
    && (forall r :: 0 <= r < |p.rules| ==> p.states[r] == RuleState(0, None) && p.starts[r] == [])
  }

  // ------------------------------------------------------------ the invariant

  ghost function Holders(callers: seq<Caller>, r: nat): set<nat>
  {
    set c: nat | c < |callers| && Holds(callers[c], r)
  }

  ghost predicate CallerSound(c: Caller, rules: nat)
  {
    && c.held <= |c.matching|
    && (forall i :: 0 <= i < |c.matching| ==> c.matching[i] < rules)
    && (forall i, j :: 0 <= i < j < |c.matching| ==> c.matching[i] < c.matching[j])
    && (c.phase.Holding? ==> c.held == |c.matching|)
    && (c.phase.Gone? ==> c.held == 0)
  }

  ghost predicate CallersSound(callers: seq<Caller>, rules: nat)
  {
    forall c :: 0 <= c < |callers| ==> CallerSound(callers[c], rules)
  }

  ghost predicate Counted(states: seq<RuleState>, callers: seq<Caller>)
  {
    forall r :: 0 <= r < |states| ==> states[r].active == |Holders(callers, r)|
  }

  ghost predicate WithinLimit(rule: Rule, state: RuleState)
  {
    rule.limit.Some? ==> state.active <= rule.limit.value
  }

  /** Recorded starts are in order, a full interval apart, and the last one is the one on record. */
  ghost predicate Spaced(starts: seq<real>, interval: real)
  {
    forall i :: 0 < i < |starts| ==> starts[i - 1] + interval <= starts[i]
  }

  ghost predicate StartsSound(rule: Rule, state: RuleState, starts: seq<real>, clock: real)
  {
    && 0.0 <= rule.interval
    && Spaced(starts, rule.interval)
    && (starts == [] <==> state.lastStart.None?)
    && (starts != [] ==> state.lastStart == Some(starts[|starts| - 1]) && starts[|starts| - 1] <= clock)
  }

  ghost predicate RulesSound(p: Policy)
  {
    && |p.states| == |p.rules| == |p.starts|
    && (forall r :: 0 <= r < |p.rules| ==>
      WithinLimit(p.rules[r], p.states[r]) && StartsSound(p.rules[r], p.states[r], p.starts[r], p.clock))
  }

  ghost predicate Inv(p: Policy)
  {
    RulesSound(p) && CallersSound(p.callers, |p.rules|) && Counted(p.states, p.callers)
  }

  lemma InitialInv(p: Policy)
    requires Initial(p)
    ensures Inv(p)
  {
    assert forall r :: 0 <= r < |p.rules| ==> ValidRule(p.rules[r]);
    assert forall r: nat :: Holders(p.callers, r) == {};
  }

  lemma HoldersMove(callers: seq<Caller>, c: nat, x: Caller, r: nat)
    requires c < |callers|
    ensures Holders(callers[c := x], r) == if Holds(x, r) then Holders(callers, r) + {c} else Holders(callers, r) - {c}
  {
  }

  lemma SameHolders(callers: seq<Caller>, c: nat, x: Caller, r: nat)
    requires c < |callers| && Holds(x, r) == Holds(callers[c], r)
    ensures Holders(callers[c := x], r) == Holders(callers, r)
  {
    HoldersMove(callers, c, x, r);
  }

  /** Acquiring the next rule adds exactly that rule to what the caller holds. */
  lemma HoldsMore(x: Caller, rules: nat, r: nat)
    requires CallerSound(x, rules) && x.held < |x.matching|
    ensures Holds(x.(held := x.held + 1), r) <==> Holds(x, r) || r == x.matching[x.held]
    ensures !Holds(x, x.matching[x.held])
  {
    assert x.matching[..x.held + 1] == x.matching[..x.held] + [x.matching[x.held]];
  }

  lemma EnterCounted(p: Policy, c: nat, delay: real)
    requires CallersSound(p.callers, |p.rules|) && Counted(p.states, p.callers) && Enabled(p, Enter(c, delay))
    ensures var t := EnterStep(p, c, delay); CallersSound(t.callers, |t.rules|) && Counted(t.states, t.callers)
  {
    var t := EnterStep(p, c, delay);
    var x := p.callers[c];
    var r := Target(p, c);
    forall q | 0 <= q < |p.states| ensures t.states[q].active == |Holders(t.callers, q)| {
      HoldsMore(x, |p.rules|, q);
      HoldersMove(p.callers, c, t.callers[c], q);
      if q == r {
        assert c !in Holders(p.callers, r);
      } else {
        SameHolders(p.callers, c, t.callers[c], q);
      }
    }
  }

  lemma EnterKeeps(p: Policy, c: nat, delay: real)
    requires Inv(p) && Enabled(p, Enter(c, delay))
    ensures Inv(EnterStep(p, c, delay))
  {
    EnterCounted(p, c, delay);
    var t := EnterStep(p, c, delay);
    var r := Target(p, c);
    forall q | 0 <= q < |p.rules|
      ensures WithinLimit(t.rules[q], t.states[q]) && StartsSound(t.rules[q], t.states[q], t.starts[q], t.clock)
    {
      assert WithinLimit(p.rules[q], p.states[q]) && StartsSound(p.rules[q], p.states[q], p.starts[q], p.clock);
    }
  }

  lemma GiveBackKeeps(p: Policy, c: nat)
    requires Inv(p) && Enabled(p, GiveBack(c))
    ensures Inv(GiveBackStep(p, c))
  {
    var t := GiveBackStep(p, c);
    var x := p.callers[c];
    var y := t.callers[c];
    assert CallerSound(x, |p.rules|);
    forall q | 0 <= q < |p.rules|
      ensures t.states[q].active == |Holders(t.callers, q)|
      ensures WithinLimit(t.rules[q], t.states[q]) && StartsSound(t.rules[q], t.states[q], t.starts[q], t.clock)
    {
      assert WithinLimit(p.rules[q], p.states[q]) && StartsSound(p.rules[q], p.states[q], p.starts[q], p.clock);
      if x.held == 0 {
        SameHolders(p.callers, c, y, q);
      } else {
        HoldsMore(y, |p.rules|, q);
        HoldersMove(p.callers, c, y, q);
        if q == x.matching[x.held - 1] {
          assert c in Holders(p.callers, q);
        } else {
          SameHolders(p.callers, c, y, q);
        }
      }
    }
  }

  /** A caller changes phase without taking or giving back anything. */
  lemma PhaseKeeps(p: Policy, c: nat, phase: Phase)
    requires Inv(p) && c < |p.callers| && CallerSound(p.callers[c].(phase := phase), |p.rules|)
    ensures Inv(SetCaller(p, c, p.callers[c].(phase := phase)))
  {
    var t := SetCaller(p, c, p.callers[c].(phase := phase));
    forall q | 0 <= q < |p.states| ensures Holders(t.callers, q) == Holders(p.callers, q) {
      SameHolders(p.callers, c, t.callers[c], q);
    }
  }

  lemma ArriveKeeps(p: Policy, matches: set<nat>)
    requires Inv(p)
    ensures Inv(Step(p, Arrive(matches)))
  {
    var t := Step(p, Arrive(matches));
    forall q | 0 <= q < |p.states| ensures Holders(t.callers, q) == Holders(p.callers, q) {
    }
  }

  lemma StepKeeps(p: Policy, a: Action)
    requires Inv(p) && Enabled(p, a)
    ensures Inv(Step(p, a))
  {
    match a
    case Arrive(matches) => ArriveKeeps(p, matches);
    case Enter(c, delay) => EnterKeeps(p, c, delay);
    case TimeOut(c) => PhaseKeeps(p, c, Leaving);
    case Begin(c) => PhaseKeeps(p, c, Holding);
    case End(c) => PhaseKeeps(p, c, Leaving);
    case GiveBack(c) => GiveBackKeeps(p, c);
    case Tick(delay) =>
      forall q | 0 <= q < |p.rules| ensures StartsSound(p.rules[q], p.states[q], p.starts[q], p.clock + delay) {
        assert StartsSound(p.rules[q], p.states[q], p.starts[q], p.clock);
      }
  }

  // ------------------------------------------------------------ over whole runs

  ghost predicate IsRun(states: seq<Policy>, actions: seq<Action>)
  {
    && |states| == |actions| + 1
    && Initial(states[0])
    && forall i :: 0 <= i < |actions| ==> Enabled(states[i], actions[i]) && states[i + 1] == Step(states[i], actions[i])
  }

  lemma {:induction false} RunKeepsInvariant(states: seq<Policy>, actions: seq<Action>, i: nat)
    requires IsRun(states, actions) && i < |states|
    ensures Inv(states[i])
  {
    if i == 0 {
      InitialInv(states[0]);
    } else {
      RunKeepsInvariant(states, actions, i - 1);
      StepKeeps(states[i - 1], actions[i - 1]);
    }
  }

  /** Under every schedule a rule's active count is the number of its holders and never exceeds its limit. */
  lemma LimitsAreKept(states: seq<Policy>, actions: seq<Action>, i: nat, r: nat)
    requires IsRun(states, actions) && i < |states| && r < |states[i].rules|
    ensures var p := states[i];
            && r < |p.states|
            && p.states[r].active == |Holders(p.callers, r)|
            && (p.rules[r].limit.Some? ==> |Holders(p.callers, r)| <= p.rules[r].limit.value)
  {
    RunKeepsInvariant(states, actions, i);
    assert WithinLimit(states[i].rules[r], states[i].states[r]);
  }

  /**
   A waiting caller may enter exactly when fewer callers than the limit hold the rule and a full interval
   has passed since its last start; otherwise, and only then, it may time out.
   */
  lemma EntersIff(states: seq<Policy>, actions: seq<Action>, i: nat, c: nat, delay: real)
    requires IsRun(states, actions) && i < |states| && Waiting(states[i], c) && delay >= 0.0
    ensures var p, r := states[i], Target(states[i], c);
      var rule, starts := p.rules[r], p.starts[r];
      && (Enabled(p, Enter(c, delay)) <==>
            && (rule.limit.None? || |Holders(p.callers, r)| < rule.limit.value)
            && (starts == [] || starts[|starts| - 1] + rule.interval <= p.clock))
      && (Enabled(p, TimeOut(c)) <==> !Enabled(p, Enter(c, delay)))
  {
    RunKeepsInvariant(states, actions, i);
    var p, r := states[i], Target(states[i], c);
    assert StartsSound(p.rules[r], p.states[r], p.starts[r], p.clock);
  }

  /** Entering records the start and makes the caller one more holder of that rule alone. */
  lemma EnteringHolds(p: Policy, c: nat, delay: real, r: nat)
    requires Inv(p) && Enabled(p, Enter(c, delay))
    ensures var t := Step(p, Enter(c, delay));
      && Holders(t.callers, r) == (if r == Target(p, c) then Holders(p.callers, r) + {c} else Holders(p.callers, r))
      && t.starts[Target(p, c)] == p.starts[Target(p, c)] + [p.clock + delay]
      && t.callers[c].held == p.callers[c].held + 1
  {
    var x := p.callers[c];
    assert CallerSound(x, |p.rules|);
    HoldsMore(x, |p.rules|, r);
    HoldersMove(p.callers, c, x.(held := x.held + 1), r);
    if Holds(x, r) { assert c in Holders(p.callers, r); } else { assert c !in Holders(p.callers, r); }
  }

  /** A caller that timed out or ended, once gone, holds nothing: every rule it had acquired is given back. */
  lemma GoneHoldsNothing(states: seq<Policy>, actions: seq<Action>, i: nat, c: nat, r: nat)
    requires IsRun(states, actions) && i < |states| && c < |states[i].callers| && states[i].callers[c].phase.Gone?
    ensures c !in Holders(states[i].callers, r)
  {
    RunKeepsInvariant(states, actions, i);
    assert CallerSound(states[i].callers[c], |states[i].rules|);
  }

  /** `t` is reached from `p` by exactly `n` enabled give-back regions of caller `c`. */
  ghost predicate GivesBack(p: Policy, c: nat, n: nat, t: Policy)
    decreases n
  {
    if n == 0 then p == t else Enabled(p, GiveBack(c)) && GivesBack(GiveBackStep(p, c), c, n - 1, t)
  }

  /** Everything but the rule counters and caller `c` is as it was; the counters of `rules` went down by one. */
  ghost predicate GaveBack(p: Policy, t: Policy, c: nat, rules: seq<nat>)
  {
    && t == p.(states := t.states, callers := t.callers)
    && |t.states| == |p.states| && |t.callers| == |p.callers|
    && (forall d :: 0 <= d < |p.callers| && d != c ==> t.callers[d] == p.callers[d])
    && (forall r :: 0 <= r < |p.states| ==>
          t.states[r] == if r in rules then p.states[r].(active := p.states[r].active - 1) else p.states[r])
  }

  /** One region of the rollback gives back the last rule still held. */
  lemma GiveBackOne(p: Policy, c: nat)
    requires Inv(p) && c < |p.callers| && p.callers[c].phase.Leaving? && p.callers[c].held > 0
    ensures Enabled(p, GiveBack(c))
    ensures var q, x := GiveBackStep(p, c), p.callers[c];
      && Inv(q) && q.callers[c] == x.(held := x.held - 1)
      && x.held - 1 < |x.matching| && GaveBack(p, q, c, [x.matching[x.held - 1]])
  {
    assert CallerSound(p.callers[c], |p.rules|);
    GiveBackKeeps(p, c);
  }

  /** With nothing held the last region only ends the call. */
  lemma LeaveEmpty(p: Policy, c: nat)
    requires Inv(p) && c < |p.callers| && p.callers[c].phase.Leaving? && p.callers[c].held == 0
    ensures Enabled(p, GiveBack(c))
    ensures var q := GiveBackStep(p, c);
      Inv(q) && GaveBack(p, q, c, []) && q.callers[c] == p.callers[c].(phase := Gone) && GivesBack(p, c, 1, q)
  {
    GiveBackKeeps(p, c);
    assert GivesBack(GiveBackStep(p, c), c, 0, GiveBackStep(p, c));
  }

  lemma GaveBackMore(p: Policy, q: Policy, t: Policy, c: nat, front: seq<nat>, last: nat)
    requires GaveBack(p, q, c, [last]) && GaveBack(q, t, c, front) && last !in front
    ensures GaveBack(p, t, c, front + [last])
  {
  }

  lemma GivesBackNext(p: Policy, c: nat, n: nat, t: Policy)
    requires Enabled(p, GiveBack(c)) && GivesBack(GiveBackStep(p, c), c, n, t)
    ensures GivesBack(p, c, n + 1, t)
  {
  }

  /**
   The rollback never waits: a leaving caller is gone after exactly one give-back region per rule it
   holds and one more. Every rule it held goes down by one; no other rule, caller or clock is touched.
   */
  lemma {:induction false} LeavingFinishes(p: Policy, c: nat) returns (t: Policy)
    requires Inv(p) && c < |p.callers| && p.callers[c].phase.Leaving?
    ensures p.callers[c].held <= |p.callers[c].matching|
    ensures GivesBack(p, c, p.callers[c].held + 1, t)
    ensures Inv(t) && GaveBack(p, t, c, p.callers[c].matching[..p.callers[c].held])
    ensures t.callers[c] == p.callers[c].(held := 0, phase := Gone)
    decreases p.callers[c].held
  {
    var x := p.callers[c];
    assert CallerSound(x, |p.rules|);
    if x.held == 0 {
      LeaveEmpty(p, c);
      t := GiveBackStep(p, c);
    } else {
      GiveBackOne(p, c);
      var q, front, last := GiveBackStep(p, c), x.matching[..x.held - 1], x.matching[x.held - 1];
      assert x.matching[..x.held] == front + [last];
      t := LeavingFinishes(q, c);
      GaveBackMore(p, q, t, c, front, last);
      assert q.callers[c].held + 1 == x.held;
      GivesBackNext(p, c, x.held, t);
    }
  }

  // ------------------------------------------------------------ no circular wait

  /** Caller `a` is queued at a rule that caller `b` holds. */
  ghost predicate WaitsFor(p: Policy, a: nat, b: nat)
  {
    Waiting(p, a) && b < |p.callers| && Holds(p.callers[b], Target(p, a))
  }

  /** A caller waits only while holding earlier rules. */
  lemma HoldsOnlyEarlier(p: Policy, a: nat, r: nat)
    requires Inv(p) && Waiting(p, a) && Holds(p.callers[a], r)
    ensures r < Target(p, a)
  {
    assert CallerSound(p.callers[a], |p.rules|);
  }

  ghost predicate WaitChain(p: Policy, chain: seq<nat>)
  {
    forall i :: 0 < i < |chain| ==> WaitsFor(p, chain[i - 1], chain[i])
  }

  lemma {:induction false} ChainsClimb(p: Policy, chain: seq<nat>)
    requires Inv(p) && |chain| >= 2 && WaitChain(p, chain) && Waiting(p, chain[0]) && Waiting(p, chain[|chain| - 1])
    ensures Target(p, chain[0]) < Target(p, chain[|chain| - 1])
    decreases |chain|
  {
    var n := |chain|;
    assert WaitsFor(p, chain[n - 2], chain[n - 1]);
    HoldsOnlyEarlier(p, chain[n - 1], Target(p, chain[n - 2]));
    if n > 2 {
      assert WaitChain(p, chain[..n - 1]);
      ChainsClimb(p, chain[..n - 1]);
    }
  }

  /** No chain of callers, each waiting for a rule the next one holds, ever closes into a cycle. */
  lemma NoCircularWait(states: seq<Policy>, actions: seq<Action>, i: nat, chain: seq<nat>)
    requires IsRun(states, actions) && i < |states|
    requires |chain| >= 2 && WaitChain(states[i], chain)
    ensures chain[0] != chain[|chain| - 1]
  {
    RunKeepsInvariant(states, actions, i);
    assert WaitsFor(states[i], chain[0], chain[1]);
    if chain[0] == chain[|chain| - 1] {
      ChainsClimb(states[i], chain);
    }
  }

  // ------------------------------------------------------------ rate limits

  lemma {:induction false} StartsAreApart(starts: seq<real>, interval: real, i: nat, j: nat)
    requires Spaced(starts, interval) && i <= j < |starts|
    ensures starts[j] - starts[i] >= (j - i) as real * interval
    decreases j
  {
    if i < j {
      StartsAreApart(starts, interval, i, j - 1);
      assert starts[j - 1] + interval <= starts[j];
      assert (j - i) as real * interval == (j - 1 - i) as real * interval + interval;
    }
  }

  /** However callers are scheduled, n starts of a rule inside a window need (n-1) intervals of room. */
  lemma StartsInWindow(states: seq<Policy>, actions: seq<Action>, k: nat, r: nat, i: nat, j: nat, window: real)
    requires IsRun(states, actions) && k < |states| && r < |states[k].rules| && r < |states[k].starts|
    requires i <= j < |states[k].starts[r]| && states[k].starts[r][j] <= states[k].starts[r][i] + window
    ensures (j - i) as real * states[k].rules[r].interval <= window
  {
    RunKeepsInvariant(states, actions, k);
    assert StartsSound(states[k].rules[r], states[k].states[r], states[k].starts[r], states[k].clock);
    StartsAreApart(states[k].starts[r], states[k].rules[r].interval, i, j);
  }

  // ------------------------------------------------------------ the mutable rule state

  class RuleObject {
    const rule: Rule
    var active: int
    var lastStart: Option<real>

    ghost function View(): RuleState
      reads this
    {
      RuleState(active, lastStart)
    }

    /** One pass of the loop in `_enter`: `now` is read first, `start` only once the way is clear. */
    method TryEnter(now: real, start: real) returns (entered: bool)
      requires now <= start
      modifies this
      ensures entered <==> old(CanEnter(rule, View(), now))
      ensures View() == if entered then Entered(old(View()), start) else old(View())
    {
      var intervalWait := 0.0;
      if rule.interval > 0.0 && lastStart.Some? {
        intervalWait := lastStart.value + rule.interval - now;
        if intervalWait < 0.0 { intervalWait := 0.0; }
      }
      var overCapacity := rule.limit.Some? && active >= rule.limit.value;
      if !overCapacity && intervalWait <= 0.0 {
        active := active + 1;
        lastStart := Some(start);
        return true;
      }
      return false;
    }
  }

  /** The `finally` loop of `acquire`: every acquired rule goes down by one, in reverse order, and no other. */
  method GiveAllBack(active: array<int>, acquired: seq<nat>)
    requires forall i :: 0 <= i < |acquired| ==> acquired[i] < active.Length
    requires forall i, j :: 0 <= i < j < |acquired| ==> acquired[i] != acquired[j]
    modifies active
    ensures forall r :: 0 <= r < active.Length ==> active[r] == old(active[r]) - if r in acquired then 1 else 0
  {
    var k := |acquired|;
    while k > 0
      invariant 0 <= k <= |acquired|
      invariant forall r :: 0 <= r < active.Length ==> active[r] == old(active[r]) - if r in acquired[k..] then 1 else 0
    {
      k := k - 1;
      assert acquired[k..] == [acquired[k]] + acquired[k + 1..];
      active[acquired[k]] := active[acquired[k]] - 1;
    }
    assert acquired[0..] == acquired;
  }
}
