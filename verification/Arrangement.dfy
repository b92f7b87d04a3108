/**
 The arrangement planner of `arrangement_planner.cpp`: a list of active instruments
 carried from section to section as the energy rises and falls.
 */
module Arrangement {
  import opened Ordered

  // energies: unspecified 0, low 1, mid 2, high 3
  type Energy = e: nat | e <= 3

  predicate Plays(role: string, e: Energy) {
    if role == "drum" then true
    else if role == "lead" then e >= 3
    else if role == "bass" || role == "rhythm" then e >= 2
    else true
  }

  /** The instruments whose role plays at an energy, ascending. */
  function Ideal(roles: seq<string>, e: Energy): seq<nat> {
    if roles == [] then []
    else
      var n := |roles| - 1;
      Ideal(roles[..n], e) + if Plays(roles[n], e) then [n] else []
  }

  lemma {:induction false} IdealMember(roles: seq<string>, e: Energy, i: nat)
    ensures i in Ideal(roles, e) <==> i < |roles| && Plays(roles[i], e)
  {
    hide Plays;
    if roles != [] {
      IdealMember(roles[..|roles| - 1], e, i);
    }
  }

  lemma {:induction false} IdealAscends(roles: seq<string>, e: Energy)
    ensures Increasing(Ideal(roles, e))
  {
    hide Plays;
    if roles != [] {
      var front := Ideal(roles[..|roles| - 1], e);
      IdealAscends(roles[..|roles| - 1], e);
      forall k | 0 <= k < |front| ensures front[k] < |roles| - 1 {
        IdealMember(roles[..|roles| - 1], e, front[k]);
      }
    }
  }

  lemma IdealIs(roles: seq<string>, e: Energy)
    ensures Increasing(Ideal(roles, e))
    ensures forall i: nat :: i in Ideal(roles, e) <==> i < |roles| && Plays(roles[i], e)
  {
    hide Ideal, Plays;
    IdealAscends(roles, e);
    forall i: nat ensures i in Ideal(roles, e) <==> i < |roles| && Plays(roles[i], e) {
      IdealMember(roles, e, i);
    }
  }

  method TargetIndices(roles: seq<string>, e: Energy) returns (out: seq<nat>)
    ensures out == Ideal(roles, e)
  {
    hide Plays;
    out := [];
    for i := 0 to |roles|
      invariant out == Ideal(roles[..i], e)
    {
      assert roles[..i + 1][..i] == roles[..i];
      if Plays(roles[i], e) {
        out := out + [i];
      }
    }
    assert roles[..|roles|] == roles;
  }

  // ----- the two edits

  /** `x` is the first of `xs` that is not in `ys`. */
  ghost predicate FirstOutside(xs: seq<nat>, ys: seq<nat>, x: nat) {
    exists k :: 0 <= k < |xs| && xs[k] == x && x !in ys && forall j :: 0 <= j < k ==> xs[j] in ys
  }

  ghost predicate Within(xs: seq<nat>, ys: seq<nat>) {
    forall x: nat :: x in xs ==> x in ys
  }

  /** The first wanted instrument that is missing joins; nobody does when all are in. */
  ghost predicate AddsOne(active: seq<nat>, target: seq<nat>, after: seq<nat>) {
    if Within(target, active) then after == active
    else exists x: nat :: FirstOutside(target, active, x) && Increasing(after) && forall t: nat :: t in after <==> t in active || t == x
  }

  /** The first active instrument that is not wanted leaves; nobody does when all are wanted. */
  ghost predicate RemovesOne(active: seq<nat>, target: seq<nat>, after: seq<nat>) {
    if Within(active, target) then after == active
    else exists x: nat :: FirstOutside(active, target, x) && Increasing(after) && forall t: nat :: t in after <==> t in active && t != x
  }

  method AddOne(active: seq<nat>, target: seq<nat>) returns (after: seq<nat>)
    requires Increasing(active)
    ensures AddsOne(active, target, after)
  {
    for k := 0 to |target|
      invariant forall j :: 0 <= j < k ==> target[j] in active
    {
      if target[k] !in active {
        after := InsertKey(active, target[k]);
        assert target[k] in target;
        assert FirstOutside(target, active, target[k]);
        return;
      }
    }
    after := active;
  }

  method RemoveOne(active: seq<nat>, target: seq<nat>) returns (after: seq<nat>)
    requires Increasing(active)
    ensures RemovesOne(active, target, after)
  {
    for k := 0 to |active|
      invariant forall j :: 0 <= j < k ==> active[j] in target
    {
      if active[k] !in target {
        var low, high := active[..k], active[k + 1..];
        after := low + high;
        assert active == low + [active[k]] + high;
        assert active[k] in active;
        assert FirstOutside(active, target, active[k]);
        forall t: nat ensures t in after <==> t in active && t != active[k] {
          assert t in low ==> t != active[k];
          assert t in high ==> t != active[k];
        }
        return;
      }
    }
    after := active;
  }

  // ----- the plan

  ghost predicate StepsTo(roles: seq<string>, prev: Energy, curr: Energy, before: seq<nat>, after: seq<nat>) {
    if curr > prev then AddsOne(before, Ideal(roles, curr), after)
    else if curr < prev then RemovesOne(before, Ideal(roles, curr), after)
    else after == Ideal(roles, curr)
  }

  ghost predicate IsPlan(roles: seq<string>, energies: seq<Energy>, plan: seq<seq<nat>>) {
    && |plan| <= |energies|
    && (|plan| > 0 ==> plan[0] == Ideal(roles, energies[0]))
    && forall i :: 0 < i < |plan| ==> StepsTo(roles, energies[i - 1], energies[i], plan[i - 1], plan[i])
  }

  /** The active instruments of every section. */
  method Plan(roles: seq<string>, energies: seq<Energy>) returns (plan: seq<seq<nat>>)
    ensures |plan| == |energies| && IsPlan(roles, energies, plan)
  {
    hide Ideal, AddsOne, RemovesOne;
    plan := [];
    var active: seq<nat> := [];
    for i := 0 to |energies|
      invariant |plan| == i && IsPlan(roles, energies, plan)
      invariant Increasing(active) && (i > 0 ==> active == plan[i - 1])
    {
      var ideal := TargetIndices(roles, energies[i]);
      IdealIs(roles, energies[i]);
      ghost var before := active;
      if i == 0 {
        active := ideal;
      } else if energies[i] > energies[i - 1] {
        active := AddOne(active, ideal);
        EditsKeepOrder(before, ideal, active);
      } else if energies[i] < energies[i - 1] {
        active := RemoveOne(active, ideal);
        EditsKeepOrder(before, ideal, active);
      } else {
        active := ideal;
      }
      plan := plan + [active];
    }
  }

  lemma EditsKeepOrder(active: seq<nat>, target: seq<nat>, after: seq<nat>)
    requires Increasing(active) && (AddsOne(active, target, after) || RemovesOne(active, target, after))
    ensures Increasing(after)
  {
  }

  // ----- what every plan keeps

  /** The lowest and the highest energy of the first sections. */
  function LowestEnergy(energies: seq<Energy>, n: nat): Energy
    requires 0 < n <= |energies|
  {
    if n == 1 || energies[n - 1] < LowestEnergy(energies, n - 1) then energies[n - 1] else LowestEnergy(energies, n - 1)
  }

  function HighestEnergy(energies: seq<Energy>, n: nat): Energy
    requires 0 < n <= |energies|
  {
    if n == 1 || energies[n - 1] > HighestEnergy(energies, n - 1) then energies[n - 1] else HighestEnergy(energies, n - 1)
  }

  /** A role that plays at an energy plays at every higher one. */
  lemma IdealGrows(roles: seq<string>, lo: Energy, hi: Energy)
    requires lo <= hi
    ensures Within(Ideal(roles, lo), Ideal(roles, hi))
  {
    hide Ideal;
    IdealIs(roles, lo);
    IdealIs(roles, hi);
  }

  /**
   Over every sequence of sections the active list is sorted, without duplicates and in
   bounds, holds everybody the lowest energy so far calls for, and nobody the highest
   energy so far does not.
   */
  lemma {:induction false} PlanBounded(roles: seq<string>, energies: seq<Energy>, plan: seq<seq<nat>>, i: nat)
    requires IsPlan(roles, energies, plan) && i < |plan|
    ensures Increasing(plan[i]) && (forall t: nat :: t in plan[i] ==> t < |roles|)
    ensures Within(Ideal(roles, LowestEnergy(energies, i + 1)), plan[i])
    ensures Within(plan[i], Ideal(roles, HighestEnergy(energies, i + 1)))
  {
    hide Ideal, Increasing, FirstOutside;
    var low, high := LowestEnergy(energies, i + 1), HighestEnergy(energies, i + 1);
    LowestAndHighest(energies, i + 1);
    IdealIs(roles, energies[i]);
    IdealIs(roles, high);
    IdealGrows(roles, low, energies[i]);
    IdealGrows(roles, energies[i], high);
    if i > 0 {
      PlanBounded(roles, energies, plan, i - 1);
      IdealGrows(roles, low, LowestEnergy(energies, i));
      IdealGrows(roles, HighestEnergy(energies, i), high);
      OutsideIs(Ideal(roles, energies[i]), plan[i - 1]);
      OutsideIs(plan[i - 1], Ideal(roles, energies[i]));
    }
  }

  lemma OutsideIs(xs: seq<nat>, ys: seq<nat>)
    ensures forall x: nat :: FirstOutside(xs, ys, x) ==> x in xs && x !in ys
  {
  }

  lemma LowestAndHighest(energies: seq<Energy>, n: nat)
    requires 0 < n <= |energies|
    ensures LowestEnergy(energies, n) <= energies[n - 1] <= HighestEnergy(energies, n)
    ensures n > 1 ==> LowestEnergy(energies, n) <= LowestEnergy(energies, n - 1) && HighestEnergy(energies, n - 1) <= HighestEnergy(energies, n)
  {
  }

  /** The lists agree on everybody but `x`. */
  ghost predicate DifferAtMostIn(a: seq<nat>, b: seq<nat>, x: nat) {
    forall t: nat :: t != x ==> (t in a <==> t in b)
  }

  /**
   When the energy changes, at most one instrument joins or leaves; a rise drops nobody and a fall adds
   nobody. Whoever joins is the first of those wanted and missing, whoever leaves the first of those not wanted.
   */
  lemma OneChangeAtATime(roles: seq<string>, energies: seq<Energy>, plan: seq<seq<nat>>, i: nat)
    returns (x: nat)
    requires IsPlan(roles, energies, plan) && 0 < i < |plan| && energies[i] != energies[i - 1]
    ensures DifferAtMostIn(plan[i], plan[i - 1], x)
    ensures energies[i] > energies[i - 1] ==> Within(plan[i - 1], plan[i])
    ensures energies[i] < energies[i - 1] ==> Within(plan[i], plan[i - 1])
    ensures x in plan[i] && x !in plan[i - 1] ==> forall t: nat :: t < x && t in Ideal(roles, energies[i]) ==> t in plan[i - 1]
    ensures x in plan[i - 1] && x !in plan[i] ==> forall t: nat :: t < x && t in plan[i - 1] ==> t in Ideal(roles, energies[i])
  {
    hide Ideal, Increasing, FirstOutside;
    var target := Ideal(roles, energies[i]);
    IdealIs(roles, energies[i]);
    PlanBounded(roles, energies, plan, i - 1);
    if plan[i] == plan[i - 1] {
      x := 0;
    } else if energies[i] > energies[i - 1] {
      x :| FirstOutside(target, plan[i - 1], x) && forall t: nat :: t in plan[i] <==> t in plan[i - 1] || t == x;
      FirstIsLowest(target, plan[i - 1], x);
    } else {
      x :| FirstOutside(plan[i - 1], target, x) && forall t: nat :: t in plan[i] <==> t in plan[i - 1] && t != x;
      FirstIsLowest(plan[i - 1], target, x);
    }
  }

  lemma FirstIsLowest(xs: seq<nat>, ys: seq<nat>, x: nat)
    requires Increasing(xs) && FirstOutside(xs, ys, x)
    ensures forall t: nat :: t < x && t in xs ==> t in ys
  {
    var k :| 0 <= k < |xs| && xs[k] == x && x !in ys && forall j :: 0 <= j < k ==> xs[j] in ys;
    forall t: nat | t < x && t in xs ensures t in ys {
      var j :| 0 <= j < |xs| && xs[j] == t;
    }
  }

  /** Drums, pads, comping and unknown roles are never dropped. */
  lemma AlwaysPlayingKept(roles: seq<string>, energies: seq<Energy>, plan: seq<seq<nat>>, i: nat, k: nat)
    requires IsPlan(roles, energies, plan) && i < |plan| && k < |roles|
    requires roles[k] != "lead" && roles[k] != "bass" && roles[k] != "rhythm"
    ensures k in plan[i]
  {
    hide Ideal, StepsTo;
    PlanBounded(roles, energies, plan, i);
    IdealIs(roles, LowestEnergy(energies, i + 1));
  }

  /** The energy from which on a role plays: leads at high energy, basses and rhythms from mid energy on, all others always. */
  predicate Called(role: string, e: Energy) {
    (role == "lead" ==> e == 3) && (role in ["bass", "rhythm"] ==> e in [2, 3])
  }

  lemma PlaysWhenCalled(role: string, e: Energy)
    ensures Plays(role, e) <==> Called(role, e)
  {
  }

  /** In the first section, and in every section as energetic as the one before, exactly those play whom the energy calls for. */
  lemma SteadySection(roles: seq<string>, energies: seq<Energy>, plan: seq<seq<nat>>, i: nat, k: nat)
    requires IsPlan(roles, energies, plan) && i < |plan| && k < |roles| && (i > 0 ==> energies[i] == energies[i - 1])
    ensures k in plan[i] <==> Called(roles[k], energies[i])
  {
    hide Ideal, Plays;
    IdealIs(roles, energies[i]);
    PlaysWhenCalled(roles[k], energies[i]);
    assert i > 0 ==> StepsTo(roles, energies[i - 1], energies[i], plan[i - 1], plan[i]);
  }

  lemma {:induction false} HighestIsReached(energies: seq<Energy>, n: nat) returns (j: nat)
    requires 0 < n <= |energies|
    ensures j < n && energies[j] == HighestEnergy(energies, n)
  {
    if n == 1 || energies[n - 1] > HighestEnergy(energies, n - 1) {
      j := n - 1;
    } else {
      j := HighestIsReached(energies, n - 1);
    }
  }

  /** Nobody plays before the first section that calls for the role: no lead before high energy, no bass or rhythm before mid energy. */
  lemma SilentUntilCalled(roles: seq<string>, energies: seq<Energy>, plan: seq<seq<nat>>, i: nat, k: nat)
    requires IsPlan(roles, energies, plan) && i < |plan| && k < |roles|
    requires forall j :: 0 <= j <= i ==> !Called(roles[k], energies[j])
    ensures k !in plan[i]
  {
    hide Ideal, StepsTo, Plays, Called;
    PlanBounded(roles, energies, plan, i);
    var j := HighestIsReached(energies, i + 1);
    IdealIs(roles, HighestEnergy(energies, i + 1));
    PlaysWhenCalled(roles[k], energies[j]);
  }
}
