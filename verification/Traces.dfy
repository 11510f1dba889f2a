/**
 Sequences of steps of a state machine. `goes` gives the state an action leads to, or nothing where
 the action is not enabled.
 */
module Traces {
  import opened Basics

  /** `actions`, taken one after the other, are enabled and lead from `s` to `t`. */
  ghost predicate Leads<S(!new), A(!new)>(goes: (S, A) -> Option<S>, s: S, actions: seq<A>, t: S)
    decreases |actions|
  {
    if actions == [] then s == t
    else goes(s, actions[0]).Some? && Leads(goes, goes(s, actions[0]).value, actions[1..], t)
  }

  lemma LeadsOne<S(!new), A(!new)>(goes: (S, A) -> Option<S>, s: S, a: A, t: S)
    requires goes(s, a) == Some(t)
    ensures Leads(goes, s, [a], t)
  {
    assert [a][1..] == [] && Leads(goes, t, [], t);
  }

  lemma LeadsCons<S(!new), A(!new)>(goes: (S, A) -> Option<S>, s: S, a: A, mid: S, rest: seq<A>, t: S)
    requires goes(s, a) == Some(mid) && Leads(goes, mid, rest, t)
    ensures Leads(goes, s, [a] + rest, t)
  {
    assert ([a] + rest)[1..] == rest;
  }

  lemma {:induction false} LeadsFurther<S(!new), A(!new)>(
      goes: (S, A) -> Option<S>, s: S, first: seq<A>, t: S, second: seq<A>, u: S)
    requires Leads(goes, s, first, t) && Leads(goes, t, second, u)
    ensures Leads(goes, s, first + second, u)
    decreases |first|
  {
    if first == [] {
      assert first + second == second;
    } else {
      LeadsFurther(goes, goes(s, first[0]).value, first[1..], t, second, u);
      assert (first + second)[1..] == first[1..] + second;
    }
  }

  ghost predicate Links<S(!new), A(!new)>(goes: (S, A) -> Option<S>, states: seq<S>, actions: seq<A>, i: nat)
    requires i < |actions| && |states| == |actions| + 1
  {
    goes(states[i], actions[i]) == Some(states[i + 1])
  }

  /** The states in between. */
  lemma {:induction false} LeadsThrough<S(!new), A(!new)>(goes: (S, A) -> Option<S>, s: S, actions: seq<A>, t: S)
    returns (states: seq<S>)
    requires Leads(goes, s, actions, t)
    ensures |states| == |actions| + 1 && states[0] == s && states[|actions|] == t
    ensures forall i: nat :: i < |actions| ==> Links(goes, states, actions, i)
    decreases |actions|
  {
    if actions == [] {
      states := [s];
    } else {
      var tail := actions[1..];
      var rest := LeadsThrough(goes, goes(s, actions[0]).value, tail, t);
      states := [s] + rest;
      forall i: nat | i < |actions| ensures Links(goes, states, actions, i) {
        if i > 0 {
          assert Links(goes, rest, tail, i - 1);
          assert states[i] == rest[i - 1] && states[i + 1] == rest[i] && actions[i] == tail[i - 1];
        }
      }
    }
  }
}
