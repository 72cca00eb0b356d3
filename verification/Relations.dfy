/**
 A relation of one kind between the entities of a world, kept by the hooks of
 relate (relation.hpp), outside a system: sources go or lose the relation with
 their target. The hooks of relate are the first ones of their components.
 */
module Relations {
  import opened Lists
  import opened Options

  datatype Cascade = Destroy | Orphan

  type Targets = map<nat, nat>
  type Sources = map<nat, seq<nat>>

  /** Both sides say the same, but for the entities that are going. */
  ghost predicate Sound(alive: set<nat>, targets: Targets, sources: Sources, going: set<nat>) {
    && targets.Keys <= alive && sources.Keys <= alive && going <= alive
    && (forall t | t in sources && t !in going :: ListIsRight(targets, sources[t], t, going))
    && (forall s | s in targets && s !in going :: targets[s] in sources && s in sources[targets[s]])
  }

  ghost predicate ListIsRight(targets: Targets, list: seq<nat>, t: nat, going: set<nat>) {
    Once(list) && forall s | s in list :: s in targets && targets[s] == t && s !in going
  }

  /** std::erase of one that is there once at most. */
  function Without(list: seq<nat>, s: nat): (rest: seq<nat>)
    ensures forall x :: x in rest <==> x in list && x != s
    ensures Once(list) ==> Once(rest)
  {
    if list == [] then []
    else
      var init, x := list[..|list| - 1], list[|list| - 1];
      assert Once(list) ==> x !in init && Once(init);
      if x == s then Without(init, s) else Without(init, s) + [x]
  }

  lemma {:induction false} WithoutNothing(list: seq<nat>, s: nat)
    requires s !in list
    ensures Without(list, s) == list
  {
    if list != [] {
      WithoutNothing(list[..|list| - 1], s);
    }
  }

  /** Those that stay are in their order. */
  lemma {:induction false} WithoutKeepsOrder(before: seq<nat>, s: nat, behind: seq<nat>)
    requires s !in before && s !in behind
    ensures Without(before + [s] + behind, s) == before + behind
  {
    var list := before + [s] + behind;
    if behind == [] {
      assert list[..|list| - 1] == before;
      WithoutNothing(before, s);
    } else {
      assert list[..|list| - 1] == before + [s] + behind[..|behind| - 1];
      WithoutKeepsOrder(before, s, behind[..|behind| - 1]);
    }
  }

  // --- below an entity ------------------------------------------------------

  predicate IsSource(sources: Sources, t: nat, s: nat) { t in sources && s in sources[t] }

  predicate IsPath(sources: Sources, path: seq<nat>) {
    path != [] && (|path| > 1 ==> IsSource(sources, path[0], path[1]) && IsPath(sources, path[1..]))
  }

  /** x is e, a source of it, a source of one, and so on. */
  ghost predicate Reached(sources: Sources, e: nat, x: nat) {
    exists path: seq<nat> :: IsPath(sources, path) && path[0] == e && path[|path| - 1] == x
  }

  lemma ReachedSelf(sources: Sources, e: nat)
    ensures Reached(sources, e, e)
  {
    assert IsPath(sources, [e]) && [e][|[e]| - 1] == e;
  }

  lemma ReachedFirst(sources: Sources, e: nat, s: nat, x: nat)
    requires IsSource(sources, e, s) && Reached(sources, s, x)
    ensures Reached(sources, e, x)
  {
    var path: seq<nat> :| IsPath(sources, path) && path[0] == s && path[|path| - 1] == x;
    var longer := [e] + path;
    assert longer[1..] == path;
    assert IsPath(sources, longer) && longer[|longer| - 1] == x;
  }

  /** What has e and with every entity its sources has all below e. */
  ghost predicate IsClosed(sources: Sources, gone: set<nat>) {
    forall t, s | t in gone && IsSource(sources, t, s) :: s in gone
  }

  lemma {:induction false} ClosedHasPath(sources: Sources, gone: set<nat>, path: seq<nat>)
    requires IsClosed(sources, gone) && IsPath(sources, path) && path[0] in gone
    ensures path[|path| - 1] in gone
  {
    if |path| > 1 {
      ClosedHasPath(sources, gone, path[1..]);
    }
  }

  ghost predicate IsBelow(sources: Sources, e: nat, gone: set<nat>) {
    forall x :: x in gone <==> Reached(sources, e, x)
  }

  lemma ClosedIsBelow(sources: Sources, e: nat, gone: set<nat>)
    requires e in gone && IsClosed(sources, gone) && forall x | x in gone :: Reached(sources, e, x)
    ensures IsBelow(sources, e, gone)
  {
    forall x | Reached(sources, e, x) ensures x in gone {
      var path: seq<nat> :| IsPath(sources, path) && path[0] == e && path[|path| - 1] == x;
      ClosedHasPath(sources, gone, path);
    }
  }

  lemma BelowIsClosed(sources: Sources, e: nat, gone: set<nat>)
    requires IsBelow(sources, e, gone)
    ensures e in gone && IsClosed(sources, gone)
  {
    ReachedSelf(sources, e);
    forall t, s | t in gone && IsSource(sources, t, s) ensures s in gone {
      var path: seq<nat> :| IsPath(sources, path) && path[0] == e && path[|path| - 1] == t;
      PathGoesOn(sources, path, s);
    }
  }

  lemma {:induction false} PathGoesOn(sources: Sources, path: seq<nat>, s: nat)
    requires IsPath(sources, path) && IsSource(sources, path[|path| - 1], s)
    ensures IsPath(sources, path + [s]) && Reached(sources, path[0], s)
  {
    if |path| > 1 {
      PathGoesOn(sources, path[1..], s);
      assert (path + [s])[1..] == path[1..] + [s];
    } else {
      assert IsPath(sources, [s]) && (path + [s])[1..] == [s];
    }
    assert (path + [s])[|path + [s]| - 1] == s;
  }

  ghost predicate HasAll(few: Sources, many: Sources) { forall t, s | IsSource(few, t, s) :: IsSource(many, t, s) }

  lemma {:induction false} PathOfMore(few: Sources, many: Sources, path: seq<nat>)
    requires IsPath(few, path) && HasAll(few, many)
    ensures IsPath(many, path)
  {
    if |path| > 1 {
      PathOfMore(few, many, path[1..]);
    }
  }

  lemma ReachedInMore(few: Sources, many: Sources, e: nat, x: nat)
    requires Reached(few, e, x) && HasAll(few, many)
    ensures Reached(many, e, x)
  {
    var path: seq<nat> :| IsPath(few, path) && path[0] == e && path[|path| - 1] == x;
    PathOfMore(few, many, path);
  }

  /** That an entity is a source itself leads to nothing more below it. */
  lemma BelowDetached(targets: Targets, sources: Sources, e: nat, gone: set<nat>)
    requires IsBelow(Detached(targets, sources, e), e, gone)
    ensures IsBelow(sources, e, gone)
  {
    var few := Detached(targets, sources, e);
    BelowIsClosed(few, e, gone);
    forall t, s | t in gone && IsSource(sources, t, s) ensures s in gone {
      assert s != e ==> IsSource(few, t, s);
    }
    forall x | x in gone ensures Reached(sources, e, x) {
      ReachedInMore(few, sources, e, x);
    }
    ClosedIsBelow(sources, e, gone);
  }

  // --- the world ------------------------------------------------------------

  class World {
    const cascade: Cascade
    var alive: set<nat>
    /** Relation of every source, Related of every target. */
    var targets: Targets
    var sources: Sources
    var goingTarget: Option<nat>

    ghost predicate Valid()
      reads this
    {
      Sound(alive, targets, sources, {}) && goingTarget == None
    }

    constructor (cascade: Cascade)
      ensures Valid() && this.cascade == cascade && alive == {}
    {
      this.cascade := cascade;
      alive, targets, sources, goingTarget := {}, map[], map[], None;
    }

    /** emplace of the relation: forbidReplace, so to an entity without one;
        the target must exist. */
    method Emplace(source: nat, target: nat)
      requires Valid() && source in alive && target in alive && source !in targets
      modifies this`targets, this`sources
      ensures Valid() && targets == old(targets)[source := target]
      ensures sources == old(sources)[target := SourcesAt(old(sources), target) + [source]]
    {
      EmplaceKeeps(alive, targets, sources, source, target);
      targets := targets[source := target];
      if target in sources {
        sources := sources[target := sources[target] + [source]];
      } else {
        sources := sources[target := [source]];
      }
      assert [] + [source] == [source];
    }

    /** The onRemove hook of the relation: a list that goes is left alone. */
    method LeaveTarget(source: nat)
      requires source in targets
      modifies this`sources
      ensures sources == if goingTarget == Some(targets[source]) then old(sources) else Left(old(sources), targets[source], source)
    {
      var target := targets[source];
      if goingTarget == Some(target) || target !in sources {
        return;
      }
      sources := sources[target := Without(sources[target], source)];
    }

    /** erase of the relation. */
    method Erase(source: nat)
      requires Valid() && source in targets
      modifies this`targets, this`sources
      ensures Valid() && targets == old(targets) - {source} && sources == Left(old(sources), old(targets)[source], source)
    {
      EraseKeeps(alive, targets, sources, source);
      LeaveTarget(source);
      targets := targets - {source};
    }

    /** destroy: false for an entity that is not there. */
    method Destroy(e: nat) returns (destroyed: bool)
      requires Valid()
      modifies this`alive, this`targets, this`sources, this`goingTarget
      ensures Valid() && destroyed == (e in old(alive))
      ensures !destroyed ==> alive == old(alive) && targets == old(targets) && sources == old(sources)
      ensures destroyed ==> exists gone ::
          && Outcome(cascade, old(alive), old(targets), Detached(old(targets), old(sources), e), e, alive, targets, sources, gone)
          && (cascade == Cascade.Destroy ==> IsBelow(old(sources), e, gone))
    {
      destroyed := e in alive;
      if destroyed {
        ghost var gone := DestroyGoing(e, {});
        if cascade == Cascade.Destroy {
          BelowDetached(old(targets), old(sources), e, gone);
        }
      }
    }

    /** destroy with its hooks, of an entity that exists; going: those it is
        called for as their target goes. */
    method DestroyGoing(e: nat, ghost going: set<nat>) returns (ghost gone: set<nat>)
      requires Sound(alive, targets, sources, going) && e in alive && e !in going && IsNext(targets, going, goingTarget, e)
      modifies this`alive, this`targets, this`sources, this`goingTarget
      ensures Sound(alive, targets, sources, going) && goingTarget == old(goingTarget) && gone !! going
      ensures Outcome(cascade, old(alive), old(targets), if going == {} then Detached(old(targets), old(sources), e) else old(sources), e,
                      alive, targets, sources, gone)
      decreases alive - going, 0
    {
      if e in targets {
        LeaveTarget(e);
      }
      StartsGoing(alive, targets, old(sources), going, goingTarget, e, sources);
      ghost var alive0, targets0, sources0 := alive, targets, sources;
      gone := RunRelatedHook(e, going + {e});
      HookThenGone(cascade, alive0, targets0, sources0, e, alive, targets, sources, gone);
      EndsGoing(alive, targets, sources, going, e);
      targets, sources, alive := targets - {e}, sources - {e}, alive - {e};
      gone := gone + {e};
    }

    /** The onRemove hook of Related, if the entity is a target. */
    method RunRelatedHook(e: nat, ghost going: set<nat>) returns (ghost gone: set<nat>)
      requires Sound(alive, targets, sources, going) && e in going && ListIsRight(targets, SourcesAt(sources, e), e, going)
      modifies this`alive, this`targets, this`sources, this`goingTarget
      ensures Sound(alive, targets, sources, going) && goingTarget == old(goingTarget) && gone !! going
      ensures HookOutcome(cascade, old(alive), old(targets), old(sources), e, alive, targets, sources, gone)
      decreases alive - going, 2
    {
      gone := {};
      if e in sources {
        var before, list := goingTarget, sources[e];
        goingTarget := Some(e);
        if cascade == Cascade.Destroy {
          gone := DestroySources(e, list, going);
        } else {
          OrphanSources(e, list, going);
        }
        goingTarget := before;
      }
    }

    /** The onRemove hook of Related, when the sources go as well. */
    method DestroySources(e: nat, list: seq<nat>, ghost going: set<nat>) returns (ghost gone: set<nat>)
      requires Sound(alive, targets, sources, going) && e in going && goingTarget == Some(e) && cascade == Cascade.Destroy
      requires e in sources && list == sources[e] && ListIsRight(targets, list, e, going)
      modifies this`alive, this`targets, this`sources, this`goingTarget
      ensures Sound(alive, targets, sources, going) && goingTarget == old(goingTarget)
      ensures IsGoneOf(old(sources), e, list, gone) && gone !! going
      ensures alive == old(alive) - gone && targets == old(targets) - gone && sources == old(sources) - gone
      decreases alive - going, 1
    {
      gone := {};
      for k := 0 to |list|
        invariant Sound(alive, targets, sources, going) && goingTarget == Some(e)
        invariant IsGoneOf(old(sources), e, list[..k], gone) && gone !! going
        invariant alive == old(alive) - gone && targets == old(targets) - gone && sources == old(sources) - gone
      {
        var s := list[k];
        assert s in list;
        ghost var more: set<nat> := {};
        if s in alive {
          more := DestroyGoing(s, going);
        }
        OneMoreGone(old(sources), e, list, k, gone, more, old(alive));
        gone := gone + more;
      }
      assert list[..|list|] == list;
    }

    /** The onRemove hook of Related, when the sources stay. */
    method OrphanSources(e: nat, list: seq<nat>, ghost going: set<nat>)
      requires Sound(alive, targets, sources, going) && e in going && goingTarget == Some(e)
      requires ListIsRight(targets, list, e, going)
      modifies this`targets, this`sources
      ensures Sound(alive, targets, sources, going) && sources == old(sources)
      ensures targets == old(targets) - (set s | s in list)
    {
      for k := 0 to |list|
        invariant Sound(alive, targets, sources, going) && sources == old(sources)
        invariant targets == old(targets) - (set s | s in list[..k])
      {
        var s := list[k];
        assert s in list && s in old(targets) && s !in list[..k];
        if s in alive {
          LeaveTarget(s);
          targets := targets - {s};
        }
      }
    }
  }

  lemma EmplaceKeeps(alive: set<nat>, targets: Targets, sources: Sources, source: nat, target: nat)
    requires Sound(alive, targets, sources, {}) && source in alive && target in alive && source !in targets
    ensures Sound(alive, targets[source := target], sources[target := SourcesAt(sources, target) + [source]], {})
  {
    forall t | t in sources ensures ListIsRight(targets[source := target], sources[t], t, {}) {
      assert ListIsRight(targets, sources[t], t, {});
    }
  }

  lemma EraseKeeps(alive: set<nat>, targets: Targets, sources: Sources, source: nat)
    requires Sound(alive, targets, sources, {}) && source in targets
    ensures Sound(alive, targets - {source}, Left(sources, targets[source], source), {})
  {
    var sources' := Left(sources, targets[source], source);
    forall t | t in sources' ensures ListIsRight(targets - {source}, sources'[t], t, {}) {
      assert ListIsRight(targets, sources[t], t, {});
    }
  }

  /** The first one to go, or a source of the last one that goes. */
  predicate IsNext(targets: Targets, going: set<nat>, goingTarget: Option<nat>, e: nat) {
    if goingTarget.None? then going == {} else goingTarget.value in going && e in targets && targets[e] == goingTarget.value
  }

  function Left(sources: Sources, target: nat, source: nat): Sources {
    if target in sources then sources[target := Without(sources[target], source)] else sources
  }

  /** The lists once the source left its target. */
  function Detached(targets: Targets, sources: Sources, source: nat): Sources {
    if source in targets then Left(sources, targets[source], source) else sources
  }

  function SourcesAt(sources: Sources, e: nat): seq<nat> { if e in sources then sources[e] else [] }

  /** What destroy makes of a world: all below the entity go with it, or its
      sources stay, without the relation. */
  ghost predicate Outcome(cascade: Cascade, alive: set<nat>, targets: Targets, sources: Sources, e: nat,
                          alive': set<nat>, targets': Targets, sources': Sources, gone: set<nat>) {
    && alive' == alive - gone && sources' == sources - gone
    && match cascade
       case Destroy => IsBelow(sources, e, gone) && targets' == targets - gone
       case Orphan => gone == {e} && targets' == targets - {e} - (set s | s in SourcesAt(sources, e))
  }

  /** The same of the hook of its list, before the entity itself is gone. */
  ghost predicate HookOutcome(cascade: Cascade, alive: set<nat>, targets: Targets, sources: Sources, e: nat,
                              alive': set<nat>, targets': Targets, sources': Sources, gone: set<nat>) {
    && alive' == alive - gone && sources' == sources - gone
    && match cascade
       case Destroy => IsGoneOf(sources, e, SourcesAt(sources, e), gone) && targets' == targets - gone
       case Orphan => gone == {} && targets' == targets - (set s | s in SourcesAt(sources, e))
  }

  lemma HookThenGone(cascade: Cascade, alive: set<nat>, targets: Targets, sources: Sources, e: nat,
                     alive': set<nat>, targets': Targets, sources': Sources, gone: set<nat>)
    requires HookOutcome(cascade, alive, targets, sources, e, alive', targets', sources', gone) && e !in gone
    ensures Outcome(cascade, alive, targets, sources, e, alive' - {e}, targets' - {e}, sources' - {e}, gone + {e})
    ensures forall s | s in SourcesAt(sources', e) :: s !in targets'
  {
    if cascade == Cascade.Destroy {
      AllIsGone(sources, e, gone);
    }
    assert sources' - {e} == sources - (gone + {e});
  }

  /** All below some of the sources of e. */
  ghost predicate IsGoneOf(sources: Sources, e: nat, list: seq<nat>, gone: set<nat>) {
    && IsClosed(sources, gone) && (forall x | x in gone :: Reached(sources, e, x)) && forall s | s in list :: s in gone
  }

  lemma StartsGoing(alive: set<nat>, targets: Targets, sources: Sources, going: set<nat>, goingTarget: Option<nat>, e: nat,
                    sources': Sources)
    requires Sound(alive, targets, sources, going) && e in alive && e !in going && IsNext(targets, going, goingTarget, e)
    requires sources' == if going == {} then Detached(targets, sources, e) else sources
    ensures Sound(alive, targets, sources', going + {e})
    ensures ListIsRight(targets, SourcesAt(sources', e), e, going + {e})
  {
    forall t | t in sources' && t !in going ensures ListIsRight(targets, sources'[t], t, going + {e}) {
      assert ListIsRight(targets, sources[t], t, going);
    }
  }

  lemma EndsGoing(alive: set<nat>, targets: Targets, sources: Sources, going: set<nat>, e: nat)
    requires Sound(alive, targets, sources, going + {e}) && e !in going
    requires forall s | s in SourcesAt(sources, e) :: s !in targets
    ensures Sound(alive - {e}, targets - {e}, sources - {e}, going)
  {
    forall t | t in sources - {e} && t !in going ensures ListIsRight(targets - {e}, sources[t], t, going) {
      assert ListIsRight(targets, sources[t], t, going + {e});
    }
  }

  lemma AllIsGone(sources: Sources, e: nat, gone: set<nat>)
    requires IsGoneOf(sources, e, SourcesAt(sources, e), gone)
    ensures IsBelow(sources, e, gone + {e})
  {
    ReachedSelf(sources, e);
    ClosedIsBelow(sources, e, gone + {e});
  }

  lemma OneMoreGone(sources: Sources, e: nat, list: seq<nat>, k: nat, gone: set<nat>, more: set<nat>, alive: set<nat>)
    requires k < |list| && e in sources && list == sources[e] && IsGoneOf(sources, e, list[..k], gone)
    requires if list[k] in alive - gone then IsBelow(sources - gone, list[k], more) else more == {} && list[k] in gone
    ensures IsGoneOf(sources, e, list[..k + 1], gone + more)
  {
    assert list[..k + 1] == list[..k] + [list[k]];
    if list[k] in alive - gone {
      BelowIsClosed(sources - gone, list[k], more);
      assert IsSource(sources, e, list[k]);
      forall t, s | t in gone + more && IsSource(sources, t, s) ensures s in gone + more {
        assert t !in gone ==> IsSource(sources - gone, t, s);
      }
      forall x | x in more ensures Reached(sources, e, x) {
        ReachedInMore(sources - gone, sources, list[k], x);
        ReachedFirst(sources, e, list[k], x);
      }
    }
  }
}
