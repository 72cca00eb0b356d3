/** forEachDescendant: all below an entity, every one before those below it. */
module Descendants {
  import opened Lists
  import opened Options
  import opened Relations

  datatype Tree = Tree(entity: nat, below: seq<Tree>)

  /** The sources of the entity, theirs and so on. */
  predicate IsTree(sources: Sources, tree: Tree) {
    var list := SourcesAt(sources, tree.entity);
    && |tree.below| == |list|
    && forall k | 0 <= k < |list| :: tree.below[k].entity == list[k] && IsTree(sources, tree.below[k])
  }

  function Preorder(tree: Tree): (p: seq<nat>)
    ensures |p| > 0
  {
    [tree.entity] + PreorderAll(tree.below)
  }

  function PreorderAll(trees: seq<Tree>): seq<nat> {
    if trees == [] then [] else Preorder(trees[0]) + PreorderAll(trees[1..])
  }

  lemma FirstOfBoth(a: seq<Tree>, b: seq<Tree>)
    requires a != []
    ensures PreorderAll(a + b) == Preorder(a[0]) + PreorderAll(a[1..] + b)
  {
    assert (a + b)[1..] == a[1..] + b && (a + b)[0] == a[0];
  }

  lemma {:induction false} PreorderOfBoth(a: seq<Tree>, b: seq<Tree>)
    ensures PreorderAll(a + b) == PreorderAll(a) + PreorderAll(b)
  {
    if a == [] {
      assert a + b == b;
    } else {
      PreorderOfBoth(a[1..], b);
      FirstOfBoth(a, b);
      assert Preorder(a[0]) + (PreorderAll(a[1..]) + PreorderAll(b)) == Preorder(a[0]) + PreorderAll(a[1..]) + PreorderAll(b);
    }
  }

  /** The stack has the roots of what is still to come, the next one last. */
  predicate IsPending(sources: Sources, stack: seq<nat>, pending: seq<Tree>) {
    |stack| == |pending| && forall k | 0 <= k < |pending| :: pending[k].entity == stack[|stack| - 1 - k] && IsTree(sources, pending[k])
  }

  lemma PendingAtFirst(sources: Sources, tree: Tree)
    requires IsTree(sources, tree)
    ensures IsPending(sources, Reversed(SourcesAt(sources, tree.entity)), tree.below)
  {
    ReversedAt(SourcesAt(sources, tree.entity));
  }

  lemma PreorderNext(pending: seq<Tree>)
    requires pending != []
    ensures PreorderAll(pending) == [pending[0].entity] + PreorderAll(pending[0].below + pending[1..])
  {
    PreorderOfBoth(pending[0].below, pending[1..]);
  }

  /** The next one is taken, and its sources come first. */
  lemma PendingNext(sources: Sources, stack: seq<nat>, pending: seq<Tree>)
    requires IsPending(sources, stack, pending) && stack != []
    ensures var entity := stack[|stack| - 1];
      && pending[0].entity == entity && PreorderAll(pending) == [entity] + PreorderAll(pending[0].below + pending[1..])
      && IsPending(sources, stack[..|stack| - 1] + Reversed(SourcesAt(sources, entity)), pending[0].below + pending[1..])
  {
    PreorderNext(pending);
    PendingAtFirst(sources, pending[0]);
    PendingBoth(sources, Reversed(SourcesAt(sources, pending[0].entity)), pending[0].below, stack[..|stack| - 1], pending[1..]);
  }

  lemma PendingBoth(sources: Sources, first: seq<nat>, trees: seq<Tree>, stack: seq<nat>, pending: seq<Tree>)
    requires IsPending(sources, first, trees) && IsPending(sources, stack, pending)
    ensures IsPending(sources, stack + first, trees + pending)
  {}

  /** One turn of the loop: the last of the stack goes, its sources come. */
  function Turn(sources: Sources, stack: seq<nat>): seq<nat>
    requires stack != []
  {
    stack[..|stack| - 1] + Reversed(SourcesAt(sources, stack[|stack| - 1]))
  }

  /** The stack after so many turns, or once it is empty. */
  function After(sources: Sources, stack: seq<nat>, turns: nat): seq<nat>
    decreases turns
  {
    if turns == 0 || stack == [] then stack else After(sources, Turn(sources, stack), turns - 1)
  }

  lemma {:induction false} OneTurnMore(sources: Sources, stack: seq<nat>, turns: nat)
    requires After(sources, stack, turns) != []
    ensures After(sources, stack, turns + 1) == Turn(sources, After(sources, stack, turns))
    decreases turns
  {
    if turns > 0 {
      OneTurnMore(sources, Turn(sources, stack), turns - 1);
    }
  }

  function FirstStack(sources: Sources, root: nat): seq<nat> { Reversed(SourcesAt(sources, root)) }

  /** What the function is called with, in this order: one call a turn. */
  method ForEachDescendant(sources: Sources, root: nat, ghost tree: Tree) returns (visited: seq<nat>)
    requires IsTree(sources, tree) && tree.entity == root
    ensures [root] + visited == Preorder(tree)
    ensures After(sources, FirstStack(sources, root), |visited|) == []
  {
    visited := [];
    var stack := Reversed(SourcesAt(sources, root));
    ghost var pending := tree.below;
    PendingAtFirst(sources, tree);
    while stack != []
      invariant IsPending(sources, stack, pending) && visited + PreorderAll(pending) == PreorderAll(tree.below)
      invariant After(sources, FirstStack(sources, root), |visited|) == stack
      decreases |PreorderAll(pending)|
    {
      PendingNext(sources, stack, pending);
      OneTurnMore(sources, FirstStack(sources, root), |visited|);
      var entity := stack[|stack| - 1];
      stack := stack[..|stack| - 1];
      visited := visited + [entity];
      stack := stack + Reversed(SourcesAt(sources, entity));
      pending := pending[0].below + pending[1..];
    }
  }

  // --- where there is a tree ------------------------------------------------

  lemma {:induction false} PartOfAll(trees: seq<Tree>, k: nat)
    requires k < |trees|
    ensures |Preorder(trees[k])| <= |PreorderAll(trees)| && forall x | x in Preorder(trees[k]) :: x in PreorderAll(trees)
  {
    if k > 0 {
      PartOfAll(trees[1..], k - 1);
    }
  }

  lemma {:induction false} PartWith(trees: seq<Tree>, x: nat) returns (k: nat)
    requires x in PreorderAll(trees)
    ensures k < |trees| && x in Preorder(trees[k])
  {
    if x in Preorder(trees[0]) {
      k := 0;
    } else {
      k := PartWith(trees[1..], x);
      k := k + 1;
    }
  }

  lemma {:induction false} TreeBelow(sources: Sources, tree: Tree, path: seq<nat>) returns (sub: Tree)
    requires IsTree(sources, tree) && IsPath(sources, path) && path[0] == tree.entity
    ensures IsTree(sources, sub) && sub.entity == path[|path| - 1] && |Preorder(sub)| + |path| - 1 <= |Preorder(tree)|
    decreases |path|
  {
    if |path| == 1 {
      sub := tree;
    } else {
      var list := SourcesAt(sources, tree.entity);
      var k :| 0 <= k < |list| && list[k] == path[1];
      PartOfAll(tree.below, k);
      sub := TreeBelow(sources, tree.below[k], path[1..]);
    }
  }

  lemma {:induction false} TreeIsUnique(sources: Sources, a: Tree, b: Tree)
    requires IsTree(sources, a) && IsTree(sources, b) && a.entity == b.entity
    ensures a == b
  {
    forall k | 0 <= k < |a.below| ensures a.below[k] == b.below[k] {
      TreeIsUnique(sources, a.below[k], b.below[k]);
    }
  }

  lemma NotBelowItself(sources: Sources, tree: Tree, t: nat)
    requires IsTree(sources, tree) && IsSource(sources, t, tree.entity)
    ensures !Reached(sources, tree.entity, t)
  {
    if Reached(sources, tree.entity, t) {
      var path: seq<nat> :| IsPath(sources, path) && path[0] == tree.entity && path[|path| - 1] == t;
      PathGoesOn(sources, path, tree.entity);
      var sub := TreeBelow(sources, tree, path + [tree.entity]);
      TreeIsUnique(sources, sub, tree);
    }
  }

  /** With the entities that are going as far as the one asked for. */
  lemma {:induction false} TreeOf(alive: set<nat>, targets: Targets, sources: Sources, going: set<nat>, goingTarget: Option<nat>, e: nat)
    returns (tree: Tree)
    requires Sound(alive, targets, sources, going) && e in alive && e !in going && IsNext(targets, going, goingTarget, e)
    ensures tree.entity == e && IsTree(if going == {} then Detached(targets, sources, e) else sources, tree)
    decreases alive - going, 0
  {
    var sources' := if going == {} then Detached(targets, sources, e) else sources;
    StartsGoing(alive, targets, sources, going, goingTarget, e, sources');
    var below := TreesOf(alive, targets, sources', going + {e}, e, SourcesAt(sources', e));
    tree := Tree(e, below);
  }

  lemma {:induction false} TreesOf(alive: set<nat>, targets: Targets, sources: Sources, going: set<nat>, e: nat, list: seq<nat>)
    returns (trees: seq<Tree>)
    requires Sound(alive, targets, sources, going) && e in going && ListIsRight(targets, SourcesAt(sources, e), e, going)
    requires forall s | s in list :: s in SourcesAt(sources, e)
    ensures |trees| == |list| && forall k | 0 <= k < |list| :: trees[k].entity == list[k] && IsTree(sources, trees[k])
    decreases alive - going, 1, |list|
  {
    if list == [] {
      trees := [];
    } else {
      var first := TreeOf(alive, targets, sources, going, Some(e), list[0]);
      var rest := TreesOf(alive, targets, sources, going, e, list[1..]);
      trees := [first] + rest;
    }
  }

  lemma {:induction false} NodesAreReached(sources: Sources, tree: Tree, x: nat)
    requires IsTree(sources, tree) && x in Preorder(tree)
    ensures Reached(sources, tree.entity, x)
  {
    if x == tree.entity {
      ReachedSelf(sources, x);
    } else {
      var k := PartWith(tree.below, x);
      NodesAreReached(sources, tree.below[k], x);
      ReachedFirst(sources, tree.entity, tree.below[k].entity, x);
    }
  }

  lemma {:induction false} SameTree(sources: Sources, sources': Sources, tree: Tree, t: nat)
    requires IsTree(sources, tree) && t !in Preorder(tree)
    requires forall x {:trigger SourcesAt(sources', x)} | x != t :: SourcesAt(sources', x) == SourcesAt(sources, x)
    ensures IsTree(sources', tree)
  {
    assert tree.entity in Preorder(tree);
    forall k | 0 <= k < |tree.below| ensures IsTree(sources', tree.below[k]) {
      PartOfAll(tree.below, k);
      SameTree(sources, sources', tree.below[k], t);
    }
  }

  /** Everything below an entity is a tree exactly where its target is not
      below it. */
  lemma HasTreeUnlessBelowItself(alive: set<nat>, targets: Targets, sources: Sources, e: nat)
    requires Sound(alive, targets, sources, {}) && e in alive
    ensures (exists tree :: IsTree(sources, tree) && tree.entity == e) <==> !(e in targets && Reached(sources, e, targets[e]))
  {
    if exists tree :: IsTree(sources, tree) && tree.entity == e {
      var tree :| IsTree(sources, tree) && tree.entity == e;
      if e in targets {
        NotBelowItself(sources, tree, targets[e]);
      }
    }
    if !(e in targets && Reached(sources, e, targets[e])) {
      var tree := TreeOf(alive, targets, sources, {}, None, e);
      if e in targets {
        TreeOfMore(targets, sources, tree);
      }
      assert IsTree(sources, tree);
    }
  }

  lemma TreeOfMore(targets: Targets, sources: Sources, tree: Tree)
    requires tree.entity in targets && !Reached(sources, tree.entity, targets[tree.entity])
    requires IsTree(Detached(targets, sources, tree.entity), tree)
    ensures IsTree(sources, tree)
  {
    var few, t := Detached(targets, sources, tree.entity), targets[tree.entity];
    if t in Preorder(tree) {
      NodesAreReached(few, tree, t);
      ReachedInMore(few, sources, tree.entity, t);
    }
    SameTree(few, sources, tree, t);
  }
  // --- where the loop ends --------------------------------------------------

  lemma PendingSplits(sources: Sources, stack: seq<nat>, first: seq<nat>, pending: seq<Tree>)
    requires IsPending(sources, stack + first, pending)
    ensures IsPending(sources, first, pending[..|first|]) && IsPending(sources, stack, pending[|first|..])
  {
    forall k | 0 <= k < |first| ensures pending[k].entity == first[|first| - 1 - k] {
      assert (stack + first)[|stack| + |first| - 1 - k] == first[|first| - 1 - k];
    }
    forall k | 0 <= k < |stack| ensures pending[|first|..][k].entity == stack[|stack| - 1 - k] {
      assert (stack + first)[|stack| - 1 - k] == stack[|stack| - 1 - k];
      assert pending[|first| + k].entity == (stack + first)[|stack + first| - 1 - (|first| + k)];
    }
  }

  /** The trees of the sources of an entity are what is below it. */
  lemma TreesAreBelow(sources: Sources, entity: nat, below: seq<Tree>)
    requires IsPending(sources, Reversed(SourcesAt(sources, entity)), below)
    ensures IsTree(sources, Tree(entity, below))
  {
    ReversedAt(SourcesAt(sources, entity));
  }

  /** What is to come after a turn is what was to come before it. */
  lemma PendingBefore(sources: Sources, stack: seq<nat>, later: seq<Tree>) returns (pending: seq<Tree>)
    requires stack != [] && IsPending(sources, Turn(sources, stack), later)
    ensures IsPending(sources, stack, pending)
  {
    var entity, rest := stack[|stack| - 1], stack[..|stack| - 1];
    var first := Reversed(SourcesAt(sources, entity));
    PendingSplits(sources, rest, first, later);
    var tree := Tree(entity, later[..|first|]);
    TreesAreBelow(sources, entity, tree.below);
    pending := [tree] + later[|first|..];
    PendingBoth(sources, [entity], [tree], rest, later[|first|..]);
    assert rest + [entity] == stack;
  }

  /** A loop that ends had trees to go through. */
  lemma {:induction false} TreesOfEnded(sources: Sources, stack: seq<nat>, turns: nat) returns (pending: seq<Tree>)
    requires After(sources, stack, turns) == []
    ensures IsPending(sources, stack, pending)
    decreases turns
  {
    if stack == [] {
      pending := [];
    } else {
      var later := TreesOfEnded(sources, Turn(sources, stack), turns - 1);
      pending := PendingBefore(sources, stack, later);
    }
  }

  /** With trees to go through it ends, after a turn for every entity of them. */
  lemma {:induction false} EndsWithTrees(sources: Sources, stack: seq<nat>, pending: seq<Tree>)
    requires IsPending(sources, stack, pending)
    ensures After(sources, stack, |PreorderAll(pending)|) == []
    decreases |PreorderAll(pending)|
  {
    if stack != [] {
      PendingNext(sources, stack, pending);
      EndsWithTrees(sources, Turn(sources, stack), pending[0].below + pending[1..]);
    }
  }

  /** forEachDescendant of an entity comes to an end exactly where its target is
      not below it. */
  lemma EndsUnlessBelowItself(alive: set<nat>, targets: Targets, sources: Sources, e: nat)
    requires Sound(alive, targets, sources, {}) && e in alive
    ensures (exists turns :: After(sources, FirstStack(sources, e), turns) == []) <==>
            !(e in targets && Reached(sources, e, targets[e]))
  {
    HasTreeUnlessBelowItself(alive, targets, sources, e);
    if turns: nat :| After(sources, FirstStack(sources, e), turns) == [] {
      var below := TreesOfEnded(sources, FirstStack(sources, e), turns);
      TreesAreBelow(sources, e, below);
    }
    if tree :| IsTree(sources, tree) && tree.entity == e {
      PendingAtFirst(sources, tree);
      EndsWithTrees(sources, FirstStack(sources, e), tree.below);
    }
  }

  const CYCLE_TARGETS: Targets := map[0 := 1, 1 := 0]
  const CYCLE_SOURCES: Sources := map[0 := [1], 1 := [0]]

  lemma CycleIsSound()
    ensures Sound({0, 1}, CYCLE_TARGETS, CYCLE_SOURCES, {})
  {}

  lemma CycleStack(e: nat)
    requires e < 2
    ensures FirstStack(CYCLE_SOURCES, e) == [1 - e]
  {
    assert SourcesAt(CYCLE_SOURCES, e) == [1 - e];
  }

  lemma {:induction false} CycleGoesOn(e: nat, turns: nat)
    requires e < 2
    ensures After(CYCLE_SOURCES, FirstStack(CYCLE_SOURCES, e), turns) != []
    decreases turns
  {
    CycleStack(e);
    if turns > 0 {
      CycleGoesOn(1 - e, turns - 1);
      assert Turn(CYCLE_SOURCES, [1 - e]) == FirstStack(CYCLE_SOURCES, 1 - e);
    }
  }

  /** Two entities, each the target of the other: the stack is never empty. */
  lemma NoEndOnACycle(e: nat)
    requires e < 2
    ensures Sound({0, 1}, CYCLE_TARGETS, CYCLE_SOURCES, {})
    ensures forall turns :: After(CYCLE_SOURCES, FirstStack(CYCLE_SOURCES, e), turns) != []
  {
    CycleIsSound();
    forall turns ensures After(CYCLE_SOURCES, FirstStack(CYCLE_SOURCES, e), turns) != [] {
      CycleGoesOn(e, turns);
    }
  }
}
