/** Which systems run at the same time (Scheduler::stagesFor). */
module Stages {
  import opened Access
  import Ranks

  /** A system does not share a stage with an earlier one it conflicts with, nor
      comes before it. */
  ghost predicate KeepsApart(systems: seq<SystemAccess>, stageOf: seq<nat>) {
    && |stageOf| == |systems|
    && (forall e, i | 0 <= e < i < |systems| && Conflict(systems[i], systems[e]) :: stageOf[e] < stageOf[i])
  }

  /** A system later than the first stage has an earlier one it conflicts with
      in the stage before. */
  ghost predicate IsTight(systems: seq<SystemAccess>, stageOf: seq<nat>) {
    && |stageOf| == |systems|
    && (forall i | 0 <= i < |systems| && stageOf[i] > 0 :: exists e :: 0 <= e < i && IsReason(systems, stageOf, e, i))
  }

  ghost predicate IsReason(systems: seq<SystemAccess>, stageOf: seq<nat>, e: nat, i: nat)
    requires e < i < |systems| == |stageOf|
  {
    Conflict(systems[i], systems[e]) && stageOf[e] + 1 == stageOf[i]
  }

  /** The stage after the last one of those before the system that it conflicts with. */
  method StageOf(systems: seq<SystemAccess>, stageOf: seq<nat>, i: nat) returns (stage: nat)
    requires i == |stageOf| < |systems|
    ensures Fits(systems, stageOf, i, stage)
  {
    stage := 0;
    for earlier := 0 to i
      invariant forall e | 0 <= e < earlier && Conflict(systems[i], systems[e]) :: stageOf[e] < stage
      invariant stage > 0 ==> exists e | 0 <= e < earlier :: Conflict(systems[i], systems[e]) && stageOf[e] + 1 == stage
    {
      var conflict := ConflictsWith(systems[i], systems[earlier]);
      if conflict && stageOf[earlier] + 1 > stage {
        stage := stageOf[earlier] + 1;
      }
    }
  }

  /** Both, of the first of the systems. */
  ghost predicate AreStaged(systems: seq<SystemAccess>, stageOf: seq<nat>, count: nat) {
    && KeepsApart(systems, stageOf) && IsTight(systems, stageOf)
    && (forall i | 0 <= i < |stageOf| :: stageOf[i] < count)
    && (count > 0 ==> exists i :: 0 <= i < |stageOf| && stageOf[i] + 1 == count)
  }

  /** The same of the first so many of them. */
  ghost predicate AreStagedUpTo(systems: seq<SystemAccess>, stageOf: seq<nat>, count: nat, i: nat)
    requires i <= |systems|
  {
    AreStaged(systems[..i], stageOf, count)
  }

  function Most(count: nat, stage: nat): nat { if stage + 1 > count then stage + 1 else count }

  method StagesOf(systems: seq<SystemAccess>) returns (stageOf: seq<nat>, count: nat)
    ensures AreStaged(systems, stageOf, count)
  {
    stageOf, count := [], 0;
    for i := 0 to |systems|
      invariant |stageOf| == i && AreStagedUpTo(systems, stageOf, count, i)
    {
      var stage := StageOf(systems, stageOf, i);
      OneSystemMore(systems, stageOf, i, stage, count);
      stageOf, count := stageOf + [stage], Most(count, stage);
    }
    AllSystems(systems, stageOf, count);
  }

  lemma AllSystems(systems: seq<SystemAccess>, stageOf: seq<nat>, count: nat)
    requires AreStagedUpTo(systems, stageOf, count, |systems|)
    ensures AreStaged(systems, stageOf, count)
  {
    assert systems[..|systems|] == systems;
  }

  ghost predicate Fits(systems: seq<SystemAccess>, stageOf: seq<nat>, i: nat, stage: nat)
    requires i == |stageOf| < |systems|
  {
    && (forall e | 0 <= e < i && Conflict(systems[i], systems[e]) :: stageOf[e] < stage)
    && (stage > 0 ==> exists e | 0 <= e < i :: Conflict(systems[i], systems[e]) && stageOf[e] + 1 == stage)
  }

  lemma OneStaysTight(systems: seq<SystemAccess>, stageOf: seq<nat>, i: nat, stage: nat)
    requires i == |stageOf| < |systems| && IsTight(systems[..i], stageOf) && Fits(systems, stageOf, i, stage)
    ensures IsTight(systems[..i + 1], stageOf + [stage])
  {
    var before, now, more := systems[..i], systems[..i + 1], stageOf + [stage];
    forall k | 0 <= k < |now| && more[k] > 0 ensures exists e :: 0 <= e < k && IsReason(now, more, e, k) {
      if k < i {
        var e :| 0 <= e < k && IsReason(before, stageOf, e, k);
        assert IsReason(now, more, e, k);
      } else {
        var e :| 0 <= e < i && Conflict(systems[i], systems[e]) && stageOf[e] + 1 == stage;
        assert IsReason(now, more, e, k);
      }
    }
  }

  lemma OneStaysApart(systems: seq<SystemAccess>, stageOf: seq<nat>, i: nat, stage: nat)
    requires i == |stageOf| < |systems| && KeepsApart(systems[..i], stageOf) && Fits(systems, stageOf, i, stage)
    ensures KeepsApart(systems[..i + 1], stageOf + [stage])
  {
    var before, now, more := systems[..i], systems[..i + 1], stageOf + [stage];
    forall e, k | 0 <= e < k < |now| && Conflict(now[k], now[e]) ensures more[e] < more[k] {
      if k < i {
        assert before[k] == now[k] && before[e] == now[e];
      } else {
        assert now[k] == systems[i] && now[e] == systems[e];
      }
    }
  }

  lemma OneIsLast(stageOf: seq<nat>, stage: nat, count: nat)
    requires forall i | 0 <= i < |stageOf| :: stageOf[i] < count
    requires count > 0 ==> exists i :: 0 <= i < |stageOf| && stageOf[i] + 1 == count
    ensures var more, most := stageOf + [stage], Most(count, stage);
      (forall i | 0 <= i < |more| :: more[i] < most) && exists i :: 0 <= i < |more| && more[i] + 1 == most
  {
    var more, most := stageOf + [stage], Most(count, stage);
    if stage + 1 >= count {
      assert more[|stageOf|] + 1 == most;
    } else {
      var i :| 0 <= i < |stageOf| && stageOf[i] + 1 == count;
      assert more[i] + 1 == most;
    }
  }

  lemma OneSystemMore(systems: seq<SystemAccess>, stageOf: seq<nat>, i: nat, stage: nat, count: nat)
    requires i == |stageOf| < |systems| && AreStagedUpTo(systems, stageOf, count, i) && Fits(systems, stageOf, i, stage)
    ensures AreStagedUpTo(systems, stageOf + [stage], Most(count, stage), i + 1)
  {
    OneStaysTight(systems, stageOf, i, stage);
    OneStaysApart(systems, stageOf, i, stage);
    OneIsLast(stageOf, stage, count);
  }

  // --- the number of a stage ------------------------------------------------

  /** Systems in the order they were added, each in conflict with the next. */
  ghost predicate IsChain(systems: seq<SystemAccess>, chain: seq<nat>) {
    && (forall k | 0 <= k < |chain| :: chain[k] < |systems|)
    && (forall k | 0 < k < |chain| :: Follows(systems, chain, k))
  }

  ghost predicate Follows(systems: seq<SystemAccess>, chain: seq<nat>, k: nat)
    requires 0 < k < |chain| && forall k | 0 <= k < |chain| :: chain[k] < |systems|
  {
    chain[k - 1] < chain[k] && Conflict(systems[chain[k]], systems[chain[k - 1]])
  }

  /** No chain up to a system is longer than its stage says, whatever staging
      keeps the systems apart: that of stagesFor has the lowest numbers. */
  lemma {:induction false} ChainFits(systems: seq<SystemAccess>, stageOf: seq<nat>, chain: seq<nat>)
    requires KeepsApart(systems, stageOf) && IsChain(systems, chain) && chain != []
    ensures |chain| <= stageOf[chain[|chain| - 1]] + 1
  {
    var last := |chain| - 1;
    if last > 0 {
      var init := chain[..last];
      assert forall k | 0 < k < |init| :: Follows(systems, chain, k) && Follows(systems, init, k);
      ChainFits(systems, stageOf, init);
      assert Follows(systems, chain, last);
    }
  }

  /** There is a chain as long as the stage of a system says. */
  lemma {:induction false} LongestChain(systems: seq<SystemAccess>, stageOf: seq<nat>, i: nat) returns (chain: seq<nat>)
    requires IsTight(systems, stageOf) && i < |systems|
    ensures IsChain(systems, chain) && |chain| == stageOf[i] + 1 && chain[|chain| - 1] == i
    decreases i
  {
    if stageOf[i] == 0 {
      chain := [i];
    } else {
      var e :| 0 <= e < i && IsReason(systems, stageOf, e, i);
      var init := LongestChain(systems, stageOf, e);
      chain := init + [i];
      forall k | 0 < k < |chain| ensures Follows(systems, chain, k) {
        if k < |init| {
          assert Follows(systems, init, k);
        }
      }
    }
  }

  /** No staging that keeps the systems apart has a lower number for any. */
  lemma StagesAreLowest(systems: seq<SystemAccess>, stageOf: seq<nat>, other: seq<nat>, i: nat)
    requires IsTight(systems, stageOf) && KeepsApart(systems, other) && i < |systems|
    ensures stageOf[i] <= other[i]
  {
    var chain := LongestChain(systems, stageOf, i);
    ChainFits(systems, other, chain);
  }

  // --- the systems of a stage -----------------------------------------------

  function UpTo(n: nat): (all: seq<nat>)
    ensures |all| == n && forall k | 0 <= k < n :: all[k] == k
  {
    if n == 0 then [] else UpTo(n - 1) + [n - 1]
  }

  /** Systems below end of stage k, ascending. */
  predicate IsStage(stage: seq<nat>, stageOf: seq<nat>, k: nat, end: nat) {
    && (forall a | 0 <= a < |stage| :: stage[a] < end <= |stageOf| && stageOf[stage[a]] == k)
    && (forall a, b | 0 <= a < b < |stage| :: stage[a] < stage[b])
  }

  predicate AreStages(stages: seq<seq<nat>>, stageOf: seq<nat>, end: nat) {
    forall k | 0 <= k < |stages| :: IsStage(stages[k], stageOf, k, end)
  }

  lemma StageGrows(stages: seq<seq<nat>>, stageOf: seq<nat>, i: nat)
    requires i < |stageOf| && stageOf[i] < |stages| && AreStages(stages, stageOf, i)
    ensures AreStages(stages[stageOf[i] := stages[stageOf[i]] + [i]], stageOf, i + 1)
  {
    var more := stages[stageOf[i] := stages[stageOf[i]] + [i]];
    forall k | 0 <= k < |more| ensures IsStage(more[k], stageOf, k, i + 1) {
      assert IsStage(stages[k], stageOf, k, i);
    }
  }

  /** The first so many systems are in the stages, each once. */
  ghost predicate HasFirst(stages: seq<seq<nat>>, n: nat) { multiset(Ranks.Flat<nat>(stages)) == multiset(UpTo(n)) }

  lemma NothingIsStaged(stages: seq<seq<nat>>, stageOf: seq<nat>)
    requires forall k | 0 <= k < |stages| :: stages[k] == []
    ensures AreStages(stages, stageOf, 0) && HasFirst(stages, 0)
  {
    NothingIsFlat(stages);
  }

  lemma FirstGrows(stages: seq<seq<nat>>, k: nat, i: nat)
    requires k < |stages| && HasFirst(stages, i)
    ensures HasFirst(stages[k := stages[k] + [i]], i + 1)
  {
    FlatGrows(stages, k, i);
    assert UpTo(i + 1) == UpTo(i) + [i];
  }

  /** push_back to the stage of a system. */
  function Pushed(stages: seq<seq<nat>>, stage: nat, i: nat): seq<seq<nat>>
    requires stage < |stages|
  {
    stages[stage := stages[stage] + [i]]
  }

  ghost predicate Grouped(stages: seq<seq<nat>>, stageOf: seq<nat>, n: nat) { AreStages(stages, stageOf, n) && HasFirst(stages, n) }

  lemma PushedIsGrouped(stages: seq<seq<nat>>, stageOf: seq<nat>, i: nat)
    requires i < |stageOf| && stageOf[i] < |stages| && Grouped(stages, stageOf, i)
    ensures Grouped(Pushed(stages, stageOf[i], i), stageOf, i + 1)
  {
    FirstGrows(stages, stageOf[i], i);
    StageGrows(stages, stageOf, i);
  }

  /** The systems of every stage, in the order they were added. */
  method Group(stageOf: seq<nat>, count: nat) returns (stages: seq<seq<nat>>)
    requires forall i | 0 <= i < |stageOf| :: stageOf[i] < count
    ensures |stages| == count && Grouped(stages, stageOf, |stageOf|)
  {
    stages := seq(count, _ => []);
    NothingIsStaged(stages, stageOf);
    for i := 0 to |stageOf|
      invariant |stages| == count && Grouped(stages, stageOf, i)
    {
      PushedIsGrouped(stages, stageOf, i);
      stages := Pushed(stages, stageOf[i], i);
    }
  }

  lemma {:induction false} NothingIsFlat(stages: seq<seq<nat>>)
    requires forall k | 0 <= k < |stages| :: stages[k] == []
    ensures Ranks.Flat<nat>(stages) == []
  {
    if stages != [] {
      NothingIsFlat(stages[..|stages| - 1]);
    }
  }

  lemma {:induction false} FlatGrows(stages: seq<seq<nat>>, k: nat, x: nat)
    requires k < |stages|
    ensures multiset(Ranks.Flat<nat>(stages[k := stages[k] + [x]])) == multiset(Ranks.Flat(stages)) + multiset{x}
  {
    var last, more := |stages| - 1, stages[k := stages[k] + [x]];
    if k == last {
      assert more[..last] == stages[..last];
    } else {
      assert more[..last] == stages[..last][k := stages[..last][k] + [x]];
      FlatGrows(stages[..last], k, x);
    }
  }
}
