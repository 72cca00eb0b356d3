/** What systems do when their stages run one after the other. */
module StageRuns {
  import opened Access
  import opened Stages
  import Ranks

  /** All that systems share. */
  type World = map<Resource, int>

  /** A system without Commands: what it does of the world in one run. */
  datatype System = System(access: SystemAccess, run: World -> World)

  predicate Sees(access: SystemAccess, r: Resource) { access.exclusive || Takes(access, r) }

  predicate MayChange(access: SystemAccess, r: Resource) { access.exclusive || Changes(access, r) }

  /** All that the system takes is the same in both. */
  ghost predicate LookSame(access: SystemAccess, a: World, b: World) {
    a.Keys == b.Keys && forall r | r in a && Sees(access, r) :: a[r] == b[r]
  }

  /** The system uses what it says: nothing else changes, and what changes
      depends on nothing else. */
  ghost predicate UsesItsAccess(s: System) {
    && (forall w: World :: s.run(w).Keys == w.Keys && forall r | r in w && !MayChange(s.access, r) :: s.run(w)[r] == w[r])
    && (forall a: World, b: World {:trigger s.run(a), s.run(b)} :: LookSame(s.access, a, b) ==>
          forall r | r in a && MayChange(s.access, r) :: s.run(a)[r] == s.run(b)[r])
  }

  function AccessesOf(systems: seq<System>): (accesses: seq<SystemAccess>)
    ensures |accesses| == |systems| && forall i | 0 <= i < |systems| :: accesses[i] == systems[i].access
  {
    seq(|systems|, i requires 0 <= i < |systems| => systems[i].access)
  }

  predicate AreSystems(systems: seq<System>, order: seq<nat>) { forall k | 0 <= k < |order| :: order[k] < |systems| }

  function RunAll(systems: seq<System>, order: seq<nat>, w: World): World
    requires AreSystems(systems, order)
  {
    if order == [] then w
    else systems[order[|order| - 1]].run(RunAll(systems, order[..|order| - 1], w))
  }

  /** Of two systems that do not conflict, one does not see whether the other one ran. */
  lemma RunsUnseen(a: System, b: System, w: World)
    requires UsesItsAccess(a) && UsesItsAccess(b) && !Conflict(a.access, b.access)
    ensures LookSame(a.access, w, b.run(w))
  {
    forall r | r in w && Sees(a.access, r) ensures w[r] == b.run(w)[r] {
      assert !Clashing(a.access, b.access, r);
      assert Changes(b.access, r) ==> Takes(b.access, r);
    }
  }

  lemma Commute(a: System, b: System, w: World)
    requires UsesItsAccess(a) && UsesItsAccess(b) && !Conflict(a.access, b.access) && !Conflict(b.access, a.access)
    ensures a.run(b.run(w)) == b.run(a.run(w))
  {
    RunsUnseen(a, b, w);
    RunsUnseen(b, a, w);
    var ab, ba := a.run(b.run(w)), b.run(a.run(w));
    forall r | r in w ensures ab[r] == ba[r] {
      assert !Clashing(a.access, b.access, r);
      assert Changes(a.access, r) ==> Takes(a.access, r);
      assert Changes(b.access, r) ==> Takes(b.access, r);
      if MayChange(a.access, r) {
        assert a.run(w)[r] == ab[r];
      } else if MayChange(b.access, r) {
        assert b.run(w)[r] == ba[r];
      }
    }
  }

  lemma ConflictBothWays(a: SystemAccess, b: SystemAccess)
    ensures Conflict(a, b) <==> Conflict(b, a)
  {
    forall r: Resource ensures Clashing(a, b, r) <==> Clashing(b, a, r) {}
  }

  /** A system can as well run after others that it does not conflict with. */
  lemma {:induction false} RunsLater(systems: seq<System>, before: seq<nat>, x: nat, after: seq<nat>, w: World)
    requires x < |systems| && AreSystems(systems, before) && AreSystems(systems, after)
    requires forall i | 0 <= i < |systems| :: UsesItsAccess(systems[i])
    requires forall k | 0 <= k < |after| :: !Conflict(systems[x].access, systems[after[k]].access)
    ensures RunAll(systems, before + [x] + after, w) == RunAll(systems, before + after + [x], w)
  {
    if after == [] {
      assert before + [x] + after == before + after + [x];
    } else {
      var init, y := after[..|after| - 1], after[|after| - 1];
      RunsLater(systems, before, x, init, w);
      assert (before + [x] + after)[..|before + [x] + after| - 1] == before + [x] + init;
      assert (before + init + [x])[..|before + init|] == before + init;
      assert (before + after + [x])[..|before + after|] == before + after;
      assert (before + after)[..|before + after| - 1] == before + init;
      ConflictBothWays(systems[x].access, systems[y].access);
      Commute(systems[y], systems[x], RunAll(systems, before + init, w));
    }
  }

  /** Systems that conflict run in the order they were added. */
  ghost predicate KeepsOrder(systems: seq<System>, order: seq<nat>)
    requires AreSystems(systems, order)
  {
    forall a, b | 0 <= a < b < |order| && Conflict(systems[order[a]].access, systems[order[b]].access) :: order[a] < order[b]
  }

  /** All of the first n, each once. */
  predicate IsOrder(order: seq<nat>, n: nat) { multiset(order) == multiset(UpTo(n)) }

  lemma {:induction false} UpToHasOnce(n: nat, x: nat)
    ensures multiset(UpTo(n))[x] == if x < n then 1 else 0
  {
    if n > 0 {
      UpToHasOnce(n - 1, x);
    }
  }

  lemma OrderIsOnce(order: seq<nat>, n: nat)
    requires IsOrder(order, n)
    ensures forall k | 0 <= k < |order| :: order[k] < n
    ensures forall a, b | 0 <= a < b < |order| :: order[a] != order[b]
    ensures n > 0 ==> n - 1 in order
  {
    forall k | 0 <= k < |order| ensures order[k] < n {
      assert order[k] in multiset(order);
      UpToHasOnce(n, order[k]);
    }
    forall a, b | 0 <= a < b < |order| ensures order[a] != order[b] {
      UpToHasOnce(n, order[a]);
      assert order == order[..b] + order[b..];
      assert order[a] == order[..b][a] && order[b] == order[b..][0];
      assert order[a] in multiset(order[..b]) && order[b] in multiset(order[b..]);
    }
    if n > 0 {
      UpToHasOnce(n, n - 1);
      assert n - 1 in multiset(order);
    }
  }

  lemma Cancel(a: multiset<nat>, b: multiset<nat>, x: nat)
    requires a + multiset{x} == b + multiset{x}
    ensures a == b
  {
    forall y: nat ensures a[y] == b[y] {
      assert (a + multiset{x})[y] == (b + multiset{x})[y];
    }
  }

  /** All but one of them. */
  function Rest(order: seq<nat>, k: nat): seq<nat>
    requires k < |order|
  {
    order[..k] + order[k + 1..]
  }

  lemma RestIsOrder(order: seq<nat>, k: nat, n: nat)
    requires IsOrder(order, n) && k < |order| && n > 0 && order[k] == n - 1
    ensures IsOrder(Rest(order, k), n - 1)
  {
    var last: nat := n - 1;
    assert order == order[..k] + [last] + order[k + 1..];
    assert multiset(order) == multiset(Rest(order, k)) + multiset{last};
    assert UpTo(n) == UpTo(n - 1) + [last];
    Cancel(multiset(Rest(order, k)), multiset(UpTo(n - 1)), last);
  }

  lemma RestKeepsOrder(systems: seq<System>, order: seq<nat>, k: nat)
    requires AreSystems(systems, order) && KeepsOrder(systems, order) && k < |order|
    ensures AreSystems(systems, Rest(order, k)) && KeepsOrder(systems, Rest(order, k))
  {
    forall j | 0 <= j < |Rest(order, k)| ensures Rest(order, k)[j] == order[if j < k then j else j + 1] {}
  }

  lemma LastRunsLast(systems: seq<System>, order: seq<nat>, k: nat, n: nat, w: World)
    requires AreSystems(systems, order) && IsOrder(order, n) && KeepsOrder(systems, order)
    requires forall i | 0 <= i < |systems| :: UsesItsAccess(systems[i])
    requires k < |order| && n > 0 && order[k] == n - 1 && AreSystems(systems, Rest(order, k))
    ensures RunAll(systems, order, w) == systems[n - 1].run(RunAll(systems, Rest(order, k), w))
  {
    OrderIsOnce(order, n);
    var last: nat, before, after := n - 1, order[..k], order[k + 1..];
    assert order == before + [last] + after;
    forall j | 0 <= j < |after| ensures !Conflict(systems[last].access, systems[after[j]].access) {
      assert after[j] == order[k + 1 + j];
    }
    RunsLater(systems, before, last, after, w);
    assert (before + after + [last])[..|before + after|] == before + after;
  }

  lemma PlaceOfLast(order: seq<nat>, n: nat) returns (k: nat)
    requires IsOrder(order, n) && n > 0
    ensures k < |order| && order[k] == n - 1
  {
    OrderIsOnce(order, n);
    k :| 0 <= k < |order| && order[k] == n - 1;
  }

  lemma RunsLastLast(systems: seq<System>, n: nat, w: World)
    requires 0 < n <= |systems|
    ensures RunAll(systems, UpTo(n), w) == systems[n - 1].run(RunAll(systems, UpTo(n - 1), w))
  {
    assert UpTo(n)[..n - 1] == UpTo(n - 1);
  }

  /** Whatever keeps the systems that conflict in order ends as all of them in
      the order they were added. */
  lemma {:induction false} EndsAsInOrder(systems: seq<System>, order: seq<nat>, n: nat, w: World)
    requires n <= |systems| && AreSystems(systems, order) && IsOrder(order, n) && KeepsOrder(systems, order)
    requires forall i | 0 <= i < |systems| :: UsesItsAccess(systems[i])
    ensures RunAll(systems, order, w) == RunAll(systems, UpTo(n), w)
  {
    if n == 0 {
      assert |multiset(order)| == 0;
    } else {
      var k := PlaceOfLast(order, n);
      RestKeepsOrder(systems, order, k);
      LastRunsLast(systems, order, k, n, w);
      RestIsOrder(order, k, n);
      EndsAsInOrder(systems, Rest(order, k), n - 1, w);
      RunsLastLast(systems, n, w);
    }
  }

  /** One stage after the other, the systems of each in some order. */
  predicate RunsStages(rounds: seq<seq<nat>>, stages: seq<seq<nat>>) {
    |rounds| == |stages| && forall k | 0 <= k < |stages| :: multiset(rounds[k]) == multiset(stages[k])
  }

  lemma {:induction false} SameFlat(rounds: seq<seq<nat>>, stages: seq<seq<nat>>)
    requires RunsStages(rounds, stages)
    ensures multiset(Ranks.Flat<nat>(rounds)) == multiset(Ranks.Flat<nat>(stages))
  {
    if stages != [] {
      SameFlat(rounds[..|rounds| - 1], stages[..|stages| - 1]);
    }
  }

  lemma StageOfPlace(rounds: seq<seq<nat>>, stages: seq<seq<nat>>, stageOf: seq<nat>, at: nat) returns (g: nat, k: nat)
    requires RunsStages(rounds, stages) && AreStages(stages, stageOf, |stageOf|) && at < |Ranks.Flat<nat>(rounds)|
    ensures g < |rounds| && k < |rounds[g]| && at == |Ranks.Flat<nat>(rounds[..g])| + k
    ensures Ranks.Flat<nat>(rounds)[at] < |stageOf| && stageOf[Ranks.Flat<nat>(rounds)[at]] == g
  {
    g, k := Ranks.FlatWhere(rounds, at);
    assert rounds[g][k] in multiset(rounds[g]);
    assert rounds[g][k] in stages[g];
    assert IsStage(stages[g], stageOf, g, |stageOf|);
  }

  lemma PiecesRise(rounds: seq<seq<nat>>, g: nat, h: nat)
    requires g < h <= |rounds|
    ensures |Ranks.Flat<nat>(rounds[..g])| + |rounds[g]| <= |Ranks.Flat<nat>(rounds[..h])|
  {
    Ranks.FlatUpTo(rounds, g);
    Ranks.FlatPrefix(rounds[..h], g + 1);
    assert rounds[..h][..g + 1] == rounds[..g + 1];
  }

  lemma StagesRise(rounds: seq<seq<nat>>, stages: seq<seq<nat>>, stageOf: seq<nat>, a: nat, b: nat)
    requires RunsStages(rounds, stages) && AreStages(stages, stageOf, |stageOf|) && a < b < |Ranks.Flat<nat>(rounds)|
    ensures var order := Ranks.Flat<nat>(rounds);
      order[a] < |stageOf| && order[b] < |stageOf| && stageOf[order[a]] <= stageOf[order[b]]
  {
    var ga, ka := StageOfPlace(rounds, stages, stageOf, a);
    var gb, kb := StageOfPlace(rounds, stages, stageOf, b);
    if gb < ga {
      PiecesRise(rounds, gb, ga);
    }
  }

  /** The stages of stagesFor, each in whatever order, end as all systems in the
      order they were added. */
  lemma StagesEndAsInOrder(systems: seq<System>, stageOf: seq<nat>, stages: seq<seq<nat>>, rounds: seq<seq<nat>>, w: World)
    requires forall i | 0 <= i < |systems| :: UsesItsAccess(systems[i])
    requires KeepsApart(AccessesOf(systems), stageOf) && AreStages(stages, stageOf, |stageOf|)
    requires IsOrder(Ranks.Flat<nat>(stages), |systems|) && RunsStages(rounds, stages)
    ensures AreSystems(systems, Ranks.Flat<nat>(rounds))
    ensures RunAll(systems, Ranks.Flat<nat>(rounds), w) == RunAll(systems, UpTo(|systems|), w)
  {
    var order := Ranks.Flat<nat>(rounds);
    SameFlat(rounds, stages);
    OrderIsOnce(order, |systems|);
    forall a, b | 0 <= a < b < |order| && Conflict(systems[order[a]].access, systems[order[b]].access)
      ensures order[a] < order[b]
    {
      StagesRise(rounds, stages, stageOf, a, b);
      ConflictBothWays(systems[order[a]].access, systems[order[b]].access);
    }
    EndsAsInOrder(systems, order, |systems|, w);
  }
}
