/**
 What a system uses with the listeners of the events it emits and the hooks of the
 components it edits, and what those set off in turn (Scheduler::effectiveAccess).
 */
module Closure {
  import opened Access
  import opened Lists

  /** What sets a listener off, and what a hook; without a world there are none
      of the latter. */
  datatype Trigger = Event(tag: nat) | Edit(component: nat)
  datatype Reaction = Reaction(trigger: Trigger, access: SystemAccess)

  predicate SetsOff(access: SystemAccess, trigger: Trigger) {
    match trigger
    case Event(tag) => tag in access.emits
    case Edit(component) => component in access.modified
  }

  /** Reactions, each one set off by the one before it, the first one by own. */
  predicate IsChain(reactions: seq<Reaction>, own: SystemAccess, chain: seq<Reaction>) {
    chain == [] || (
      var last := |chain| - 1;
      && IsChain(reactions, own, chain[..last]) && chain[last] in reactions
      && SetsOff(if last == 0 then own else chain[last - 1].access, chain[last].trigger))
  }

  /** The system sets this off, in however many steps. */
  ghost predicate Reached(reactions: seq<Reaction>, own: SystemAccess, r: Reaction) {
    exists chain: seq<Reaction> :: chain != [] && IsChain(reactions, own, chain) && chain[|chain| - 1] == r
  }

  /** All that own and what it sets off use. */
  ghost predicate IsClosure(reactions: seq<Reaction>, own: SystemAccess, all: SystemAccess) {
    forall fact: Fact {:trigger Has(all, fact)} ::
      Has(all, fact) <==> Has(own, fact) || exists r :: Reached(reactions, own, r) && Has(r.access, fact)
  }

  /** own with what was taken. */
  ghost predicate IsWith(own: SystemAccess, taken: set<Reaction>, all: SystemAccess) {
    forall fact: Fact {:trigger Has(all, fact)} :: Has(all, fact) <==> Has(own, fact) || exists r :: r in taken && Has(r.access, fact)
  }

  /** What own or one that was taken sets off was taken. */
  ghost predicate IsClosed(reactions: seq<Reaction>, own: SystemAccess, taken: set<Reaction>) {
    forall r | r in reactions && (SetsOff(own, r.trigger) || exists c :: c in taken && SetsOff(c.access, r.trigger)) :: r in taken
  }

  lemma MergeIsWith(own: SystemAccess, taken: set<Reaction>, all: SystemAccess, r: Reaction, more: SystemAccess)
    requires IsWith(own, taken, all) && IsMerged(all, r.access, more)
    ensures IsWith(own, taken + {r}, more)
  {
    forall fact: Fact
      ensures Has(more, fact) <==> Has(own, fact) || exists t :: t in taken + {r} && Has(t.access, fact)
    {
      MergedHas(all, r.access, more, fact);
      if Has(r.access, fact) {
        assert r in taken + {r};
      }
    }
  }

  lemma {:induction false} ClosedHasChain(reactions: seq<Reaction>, own: SystemAccess, taken: set<Reaction>, chain: seq<Reaction>)
    requires IsClosed(reactions, own, taken) && chain != [] && IsChain(reactions, own, chain)
    ensures chain[|chain| - 1] in taken
  {
    var last := |chain| - 1;
    if last > 0 {
      ClosedHasChain(reactions, own, taken, chain[..last]);
    }
  }

  function FactOf(trigger: Trigger): Fact {
    match trigger case Event(tag) => ItEmits(tag) case Edit(component) => ItEdits(component)
  }

  lemma OwnIsReached(reactions: seq<Reaction>, own: SystemAccess, r: Reaction)
    requires r in reactions && SetsOff(own, r.trigger)
    ensures Reached(reactions, own, r)
  {
    var chain := [r];
    assert IsChain(reactions, own, chain[..0]) && IsChain(reactions, own, chain) && chain[|chain| - 1] == r;
  }

  lemma FurtherIsReached(reactions: seq<Reaction>, own: SystemAccess, t: Reaction, r: Reaction)
    requires Reached(reactions, own, t) && r in reactions && SetsOff(t.access, r.trigger)
    ensures Reached(reactions, own, r)
  {
    var chain: seq<Reaction> :| chain != [] && IsChain(reactions, own, chain) && chain[|chain| - 1] == t;
    var longer := chain + [r];
    assert longer[..|chain|] == chain;
    assert IsChain(reactions, own, longer) && longer[|longer| - 1] == r;
  }

  lemma NextIsReached(reactions: seq<Reaction>, own: SystemAccess, taken: set<Reaction>, all: SystemAccess, r: Reaction)
    requires IsWith(own, taken, all) && (forall t | t in taken :: Reached(reactions, own, t))
    requires r in reactions && SetsOff(all, r.trigger)
    ensures Reached(reactions, own, r)
  {
    var fact := FactOf(r.trigger);
    assert Has(all, fact);
    if Has(own, fact) {
      OwnIsReached(reactions, own, r);
    } else {
      var t :| t in taken && Has(t.access, fact);
      FurtherIsReached(reactions, own, t, r);
    }
  }

  lemma ClosedIsClosure(reactions: seq<Reaction>, own: SystemAccess, taken: set<Reaction>, all: SystemAccess)
    requires IsWith(own, taken, all) && IsClosed(reactions, own, taken)
    requires forall t | t in taken :: Reached(reactions, own, t)
    ensures IsClosure(reactions, own, all) && forall r :: Reached(reactions, own, r) <==> r in taken
  {
    forall r | Reached(reactions, own, r) ensures r in taken {
      var chain: seq<Reaction> :| chain != [] && IsChain(reactions, own, chain) && chain[|chain| - 1] == r;
      ClosedHasChain(reactions, own, taken, chain);
    }
  }

  /** What own was as it began, and the reactions that were taken since. */
  ghost predicate Sofar(reactions: seq<Reaction>, own: SystemAccess, taken: set<Reaction>, all: SystemAccess, foreign: seq<nat>) {
    && IsWith(own, taken, all) && Once(all.emits) && Once(all.columns)
    && (forall t | t in taken :: t in reactions && Reached(reactions, own, t))
    && (forall c :: c in foreign <==> exists t :: t in taken && c in t.access.modified)
  }

  /** Everything with this trigger is taken. */
  ghost predicate Answered(reactions: seq<Reaction>, taken: set<Reaction>, trigger: Trigger) {
    forall r | r in reactions && r.trigger == trigger :: r in taken
  }

  /** take, for all that one event or edit sets off. */
  method TakeAll(reactions: seq<Reaction>, ghost own: SystemAccess, trigger: Trigger, all: SystemAccess, foreign: seq<nat>,
                 ghost taken: set<Reaction>)
    returns (all': SystemAccess, foreign': seq<nat>, ghost taken': set<Reaction>)
    requires Sofar(reactions, own, taken, all, foreign) && SetsOff(all, trigger)
    ensures Sofar(reactions, own, taken', all', foreign') && taken <= taken' && Answered(reactions, taken', trigger)
    ensures all.emits <= all'.emits && all.modified <= all'.modified
  {
    all', foreign', taken' := all, foreign, taken;
    for k := 0 to |reactions|
      invariant Sofar(reactions, own, taken', all', foreign') && taken <= taken'
      invariant Answered(reactions[..k], taken', trigger)
      invariant all.emits <= all'.emits && all.modified <= all'.modified
    {
      var r := reactions[k];
      if r.trigger == trigger {
        assert SetsOff(all', r.trigger);
        NextIsReached(reactions, own, taken', all', r);
        var more := Merge(all', r.access);
        MergeIsWith(own, taken', all', r, more);
        ForeignGrows(taken', foreign', r);
        all', foreign', taken' := more, foreign' + r.access.modified, taken' + {r};
      }
      assert reactions[..k + 1] == reactions[..k] + [r];
    }
    assert reactions[..|reactions|] == reactions;
  }

  lemma ForeignGrows(taken: set<Reaction>, foreign: seq<nat>, r: Reaction)
    requires forall c :: c in foreign <==> exists t :: t in taken && c in t.access.modified
    ensures forall c :: c in foreign + r.access.modified <==> exists t :: t in taken + {r} && c in t.access.modified
  {
    forall c ensures c in foreign + r.access.modified <==> exists t :: t in taken + {r} && c in t.access.modified {
      if c in r.access.modified {
        assert r in taken + {r};
      }
    }
  }

  /** Tags and components there are: no others come up. */
  ghost function Tags(reactions: seq<Reaction>, own: SystemAccess): set<nat> {
    (set t | t in own.emits) + (set r, t | r in reactions && t in r.access.emits :: t)
  }

  ghost function Edits(reactions: seq<Reaction>, own: SystemAccess): set<nat> {
    (set c | c in own.modified) + (set r, c | r in reactions && c in r.access.modified :: c)
  }

  lemma TagsAreKnown(reactions: seq<Reaction>, own: SystemAccess, taken: set<Reaction>, all: SystemAccess, foreign: seq<nat>)
    requires Sofar(reactions, own, taken, all, foreign)
    ensures forall t | t in all.emits :: t in Tags(reactions, own)
    ensures forall c | c in all.modified :: c in Edits(reactions, own)
  {
    forall t | t in all.emits ensures t in Tags(reactions, own) {
      assert Has(all, ItEmits(t));
    }
    forall c | c in all.modified ensures c in Edits(reactions, own) {
      assert Has(all, ItEdits(c));
    }
  }

  lemma {:induction false} OnceFits(list: seq<nat>, all: set<nat>)
    requires Once(list) && forall x | x in list :: x in all
    ensures |list| <= |all|
  {
    if list != [] {
      var last := list[|list| - 1];
      OnceFits(list[..|list| - 1], all - {last});
    }
  }

  /** effectiveAccess between its steps: it went through the first emits events
      and the first modified edits of all, and hooked are the components of the
      latter. */
  ghost predicate Progress(reactions: seq<Reaction>, own: SystemAccess, taken: set<Reaction>, all: SystemAccess,
                           foreign: seq<nat>, emits: nat, modified: nat, hooked: seq<nat>) {
    && Sofar(reactions, own, taken, all, foreign) && emits <= |all.emits| && modified <= |all.modified|
    && (forall k | 0 <= k < emits :: Answered(reactions, taken, Event(all.emits[k])))
    && Once(hooked) && (forall c | c in hooked :: c in all.modified && Answered(reactions, taken, Edit(c)))
    && (forall k | 0 <= k < modified :: all.modified[k] in hooked)
  }

  lemma ProgressIsBounded(reactions: seq<Reaction>, own: SystemAccess, taken: set<Reaction>, all: SystemAccess,
                          foreign: seq<nat>, emits: nat, modified: nat, hooked: seq<nat>)
    requires Progress(reactions, own, taken, all, foreign, emits, modified, hooked)
    ensures emits <= |Tags(reactions, own)| && |hooked| <= |Edits(reactions, own)|
  {
    TagsAreKnown(reactions, own, taken, all, foreign);
    OnceFits(all.emits, Tags(reactions, own));
    OnceFits(hooked, Edits(reactions, own));
  }

  lemma DoneIsClosed(reactions: seq<Reaction>, own: SystemAccess, taken: set<Reaction>, all: SystemAccess,
                     foreign: seq<nat>, hooked: seq<nat>)
    requires Progress(reactions, own, taken, all, foreign, |all.emits|, |all.modified|, hooked)
    ensures IsClosed(reactions, own, taken)
  {
    forall r | r in reactions && (SetsOff(own, r.trigger) || exists c :: c in taken && SetsOff(c.access, r.trigger))
      ensures r in taken
    {
      assert Has(own, FactOf(r.trigger)) || exists c :: c in taken && Has(c.access, FactOf(r.trigger));
      assert Has(all, FactOf(r.trigger));
      assert Answered(reactions, taken, r.trigger);
    }
  }

  /** The listeners of the events that were not gone through yet. */
  method AnswerEvents(reactions: seq<Reaction>, ghost own: SystemAccess, all: SystemAccess, foreign: seq<nat>,
                      emits: nat, ghost modified: nat, ghost hooked: seq<nat>, ghost taken: set<Reaction>)
    returns (all': SystemAccess, foreign': seq<nat>, emits': nat, ghost taken': set<Reaction>)
    requires Progress(reactions, own, taken, all, foreign, emits, modified, hooked)
    ensures Progress(reactions, own, taken', all', foreign', emits', modified, hooked)
    ensures emits <= emits' == |all'.emits| && (emits' == emits ==> all' == all)
  {
    all', foreign', emits', taken' := all, foreign, emits, taken;
    while emits' < |all'.emits|
      invariant Progress(reactions, own, taken', all', foreign', emits', modified, hooked)
      invariant emits <= emits' && (emits' == emits ==> all' == all)
      decreases |Tags(reactions, own)| - emits'
    {
      all', foreign', taken' := TakeAll(reactions, own, Event(all'.emits[emits']), all', foreign', taken');
      emits' := emits' + 1;
      ProgressIsBounded(reactions, own, taken', all', foreign', emits', modified, hooked);
    }
  }

  /** The hooks of the edits that were not gone through yet, of a component once. */
  method AnswerEdits(reactions: seq<Reaction>, ghost own: SystemAccess, all: SystemAccess, foreign: seq<nat>,
                     ghost emits: nat, modified: nat, hooked: seq<nat>, ghost taken: set<Reaction>)
    returns (all': SystemAccess, foreign': seq<nat>, modified': nat, hooked': seq<nat>, ghost taken': set<Reaction>)
    requires Progress(reactions, own, taken, all, foreign, emits, modified, hooked)
    ensures Progress(reactions, own, taken', all', foreign', emits, modified', hooked')
    ensures modified <= modified' == |all'.modified| && |hooked| <= |hooked'| && (|hooked'| == |hooked| ==> all' == all)
  {
    all', foreign', modified', hooked', taken' := all, foreign, modified, hooked, taken;
    while modified' < |all'.modified|
      invariant Progress(reactions, own, taken', all', foreign', emits, modified', hooked')
      invariant modified <= modified' && |hooked| <= |hooked'| && (|hooked'| == |hooked| ==> all' == all)
      decreases |Edits(reactions, own)| - |hooked'|, |all'.modified| - modified'
    {
      var component := all'.modified[modified'];
      if component !in hooked' {
        hooked' := hooked' + [component];
        all', foreign', taken' := TakeAll(reactions, own, Edit(component), all', foreign', taken');
      }
      modified' := modified' + 1;
      ProgressIsBounded(reactions, own, taken', all', foreign', emits, modified', hooked');
    }
  }

  method EffectiveAccess(reactions: seq<Reaction>, own: SystemAccess) returns (all: SystemAccess, foreign: seq<nat>)
    requires Once(own.emits) && Once(own.columns)
    ensures IsClosure(reactions, own, all)
    ensures forall c :: c in foreign <==> exists r :: Reached(reactions, own, r) && c in r.access.modified
  {
    all, foreign := own, [];
    ghost var taken: set<Reaction> := {};
    var hooked: seq<nat> := [];
    var emits, modified := 0, 0;
    while emits < |all.emits| || modified < |all.modified|
      invariant Progress(reactions, own, taken, all, foreign, emits, modified, hooked)
      decreases |Tags(reactions, own)| + |Edits(reactions, own)| - emits - |hooked|, |all.modified| - modified
    {
      all, foreign, emits, taken := AnswerEvents(reactions, own, all, foreign, emits, modified, hooked, taken);
      all, foreign, modified, hooked, taken := AnswerEdits(reactions, own, all, foreign, emits, modified, hooked, taken);
      ProgressIsBounded(reactions, own, taken, all, foreign, emits, modified, hooked);
    }
    DoneIsClosed(reactions, own, taken, all, foreign, hooked);
    ClosedIsClosure(reactions, own, taken, all);
  }
}
