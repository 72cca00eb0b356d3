/** What collect comes to when nothing else goes on. */
module ResourceCollects {
  import opened Counting
  import opened Iterations
  import opened ResourceEntry
  import opened ResourceEffects
  import opened ResourceInvariant
  import opened ResourceRuns
  import opened ResourceOutcomes

  /** An entry nobody has is out of its map; one that is in use again may be
      queued anew. */
  function Judged(en: Entry): Entry { if en.count == 0 then en.(mapped := false) else en.(queued := false) }

  /** And then the first is freed, with a load that was parked in it. */
  function Collected(en: Entry): Entry {
    if !en.queued || en.freed then en
    else if en.count > 0 then en.(queued := false)
    else en.(mapped := false, freed := true, parked := false, pending := en.pending && !en.parked,
             runs := en.runs + Bool(en.parked))
  }

  ghost predicate IsCollected(r: State, z: State) {
    && AllIdle(z) && |z.threads| == |r.threads| && |z.entries| == |r.entries| && z.chain == []
    && forall e | 0 <= e < |r.entries| :: z.entries[e] == Collected(r.entries[e])
  }

  // --- on the way -----------------------------------------------------------

  predicate InCollect(pc: Pc) {
    pc.CollectTake? || pc.CollectLock? || pc.CollectNext? || pc.CollectLook? || pc.CollectErase? || pc.CollectFree? || pc.Idle?
  }

  /** The entries of the list it has not come to. */
  function Ahead(l: Thread): seq<nat> {
    if l.pc.CollectLook? || l.pc.CollectErase? then [l.entry] + l.mine else l.mine
  }

  /** An entry of the list, before, and after it was looked at or freed. */
  predicate StandsAt(before: Entry, en: Entry, l: Thread, e: nat) {
    if e in Ahead(l) then en == before
    else if before.count > 0 || e in l.corpses then en == Judged(before)
    else l.pc.CollectFree? && en == Collected(before)
  }

  ghost predicate Stands(r: State, s: State, l: Thread) {
    && |s.entries| == |r.entries| && s.chain == []
    && (forall e | e in Ahead(l) || e in l.corpses :: e in r.chain)
    && (forall e | e in l.corpses :: e < |r.entries| && r.entries[e].count == 0 && e !in Ahead(l))
    && (forall e | 0 <= e < |r.entries| ::
          if e in r.chain then StandsAt(r.entries[e], s.entries[e], l, e) else s.entries[e] == r.entries[e])
    && (l.pc.CollectFree? ==> l.mine == [])
  }

  ghost predicate Collecting(r: State, s: State, t: nat) {
    && t < |s.threads| == |r.threads| && OthersIdle(s, t)
    && var l := s.threads[t];
       && InCollect(l.pc)
       && if l.pc.CollectTake? then s.entries == r.entries && s.chain == r.chain && l.mine == [] == l.corpses
          else if l.pc.CollectLock? then s.entries == r.entries && s.chain == [] && l.mine == r.chain && l.corpses == []
          else if l.pc.Idle? then IsCollected(r, s)
          else Stands(r, s, l)
  }

  function CollectRank(s: State, l: Thread): nat {
    match l.pc
    case CollectTake => 4 * |s.chain| + 6
    case CollectLock => 4 * |l.mine| + 5
    case CollectNext => 4 * |l.mine| + |l.corpses| + 3
    case CollectLook => 4 * |l.mine| + |l.corpses| + 6
    case CollectErase => 4 * |l.mine| + |l.corpses| + 5
    case CollectFree => |l.corpses| + 1
    case _ => 0
  }

  /** The list of a thread has no entry twice, nor one it holds. */
  lemma HandsOnce(s: State, t: nat, e: nat)
    requires Inv(s) && t < |s.threads| && e < |s.entries|
    ensures Hands(s.threads[t])[e] <= 1
  {
    SumAtLeast(PlaceWeight(e), s.threads, t);
  }

  lemma {:induction false} LinkedIsBelow(next: seq<int>, head: int, chain: seq<nat>, e: nat)
    requires Linked(next, head, chain) && e in chain
    ensures e < |next|
    decreases |chain|
  {
    if e != chain[0] {
      LinkedIsBelow(next, next[chain[0]], chain[1..], e);
    }
  }

  /** At rest the unused list has the entries with QUEUED that are not freed. */
  lemma AtRestListed(r: State, e: nat)
    requires Inv(r) && AllIdle(r) && e < |r.entries|
    ensures e in r.chain <==> r.entries[e].queued && !r.entries[e].freed
  {
    forall l | l in r.threads ensures PlaceWeight(e)(l) == 0 {
      assert ThreadOk(r, l);
    }
    SumZero(PlaceWeight(e), r.threads);
  }

  lemma NothingListed(r: State)
    requires Inv(r) && AllIdle(r) && r.chain == []
    ensures forall e | 0 <= e < |r.entries| :: r.entries[e] == Collected(r.entries[e])
  {
    forall e | 0 <= e < |r.entries| ensures r.entries[e] == Collected(r.entries[e]) {
      AtRestListed(r, e);
    }
  }

  lemma TakeCollects(r: State, s: State, t: nat)
    requires Inv(r) && AllIdle(r) && Lists(s) && Collecting(r, s, t) && s.threads[t].pc.CollectTake?
    ensures var s' := Step(s, t, Go); Collecting(r, s', t) && CollectRank(s', s'.threads[t]) < CollectRank(s, s.threads[t])
  {
    var l := s.threads[t];
    if s.head == NONE {
      NothingListed(r);
      assert Step(s, t, Go) == SetThread(s.(head := NONE, chain := []), t, l.(pc := Idle));
    } else {
      assert Step(s, t, Go) == SetThread(s.(head := NONE, chain := []), t, l.(pc := CollectLock, list := s.head, mine := s.chain));
    }
  }

  lemma LockCollects(r: State, s: State, t: nat)
    requires Collecting(r, s, t) && s.threads[t].pc.CollectLock?
    ensures var s' := Step(s, t, Go); Collecting(r, s', t) && CollectRank(s', s'.threads[t]) < CollectRank(s, s.threads[t])
  {}

  /** The entry a thread looks at is in its hands once. */
  lemma LookedOnce(s: State, t: nat)
    requires Inv(s) && t < |s.threads| && (s.threads[t].pc.CollectLook? || s.threads[t].pc.CollectErase?)
    ensures var l := s.threads[t]; l.entry < |s.entries| == |s.next| && l.entry !in l.mine
    ensures s.threads[t].pc.CollectErase? ==> s.entries[s.threads[t].entry].count == 0
  {
    var l := s.threads[t];
    assert ThreadOk(s, l);
    HandsOnce(s, t, l.entry);
    assert multiset(l.mine)[l.entry] == 0;
  }

  lemma LookedStands(r: State, s: State, l: Thread)
    requires Stands(r, s, l) && l.pc.CollectLook? && l.entry < |s.entries| && l.entry !in l.mine
    requires s.entries[l.entry].count > 0
    ensures Stands(r, s.(entries := s.entries[l.entry := s.entries[l.entry].(queued := false)]), l.(pc := CollectNext))
  {
    assert l.entry in Ahead(l);
    assert StandsAt(r.entries[l.entry], s.entries[l.entry], l, l.entry);
  }

  /** Only the thread, and what Stands is about, changed. */
  lemma StandsCollects(r: State, s: State, t: nat, s': State, l: Thread)
    requires t < |s.threads| == |r.threads| && OthersIdle(s, t) && s'.threads == s.threads[t := l] && Stands(r, s', l)
    requires l.pc.CollectNext? || l.pc.CollectLook? || l.pc.CollectErase? || l.pc.CollectFree?
    ensures Collecting(r, s', t)
  {}

  lemma NextSteps(s: State, t: nat)
    requires t < |s.threads| && s.threads[t].pc.CollectNext? && ThreadLinked(s.next, s.threads[t])
    ensures var l := s.threads[t];
      Step(s, t, Go) ==
      if l.mine == [] then SetThread(s, t, l.(pc := CollectFree))
      else SetThread(s, t, l.(pc := CollectLook, entry := l.mine[0], list := NextOf(s, l.mine[0]), mine := l.mine[1..]))
  {}

  lemma NextStands(r: State, s: State, l: Thread, l': Thread, s': State)
    requires Stands(r, s, l) && l.pc.CollectNext? && s'.entries == s.entries && s'.chain == s.chain && l'.corpses == l.corpses
    requires if l.mine == [] then l'.pc.CollectFree? && l'.mine == []
             else l'.pc.CollectLook? && l'.entry == l.mine[0] && l'.mine == l.mine[1..]
    ensures Stands(r, s', l')
  {
    assert Ahead(l') == Ahead(l);
    assert forall e | 0 <= e < |r.entries| && e in r.chain :: StandsAt(r.entries[e], s.entries[e], l, e);
  }

  lemma NextCollects(r: State, s: State, t: nat)
    requires Inv(s) && Collecting(r, s, t) && s.threads[t].pc.CollectNext?
    ensures var s' := Step(s, t, Go); Collecting(r, s', t) && CollectRank(s', s'.threads[t]) < CollectRank(s, s.threads[t])
  {
    var l := s.threads[t];
    NextSteps(s, t);
    var l' := if l.mine == [] then l.(pc := CollectFree)
              else l.(pc := CollectLook, entry := l.mine[0], list := NextOf(s, l.mine[0]), mine := l.mine[1..]);
    NextStands(r, s, l, l', SetThread(s, t, l'));
    StandsCollects(r, s, t, SetThread(s, t, l'), l');
  }

  lemma LookSteps(s: State, t: nat)
    requires t < |s.threads| && s.threads[t].pc.CollectLook? && s.threads[t].entry < |s.entries|
    ensures var l, en := s.threads[t], s.entries[s.threads[t].entry];
      Step(s, t, Go) == if en.count == 0 then SetThread(s, t, l.(pc := CollectErase))
                        else SetThread(s.(entries := s.entries[l.entry := en.(queued := false)]), t, l.(pc := CollectNext))
  {}

  lemma LookCollects(r: State, s: State, t: nat)
    requires Inv(s) && Collecting(r, s, t) && s.threads[t].pc.CollectLook?
    ensures var s' := Step(s, t, Go); Collecting(r, s', t) && CollectRank(s', s'.threads[t]) < CollectRank(s, s.threads[t])
  {
    var l := s.threads[t];
    LookedOnce(s, t);
    LookSteps(s, t);
    if s.entries[l.entry].count > 0 {
      LookedStands(r, s, l);
      StandsCollects(r, s, t, Step(s, t, Go), l.(pc := CollectNext));
    } else {
      LookedEmpty(r, s, l, l.(pc := CollectErase), SetThread(s, t, l.(pc := CollectErase)));
      StandsCollects(r, s, t, Step(s, t, Go), l.(pc := CollectErase));
    }
  }

  lemma LookedEmpty(r: State, s: State, l: Thread, l': Thread, s': State)
    requires Stands(r, s, l) && l.pc.CollectLook? && l' == l.(pc := CollectErase)
    requires s'.entries == s.entries && s'.chain == s.chain
    ensures Stands(r, s', l')
  {
    assert Ahead(l') == Ahead(l);
    assert forall e | 0 <= e < |r.entries| && e in r.chain :: StandsAt(r.entries[e], s.entries[e], l, e);
  }

  lemma ErasedStands(r: State, s: State, l: Thread)
    requires Stands(r, s, l) && l.pc.CollectErase? && l.entry < |s.entries| && l.entry !in l.mine
    requires s.entries[l.entry].count == 0
    ensures Stands(r, s.(entries := s.entries[l.entry := s.entries[l.entry].(mapped := false)]),
                   l.(pc := CollectNext, dead := l.entry, corpses := [l.entry] + l.corpses))
  {
    assert l.entry in Ahead(l);
    assert StandsAt(r.entries[l.entry], s.entries[l.entry], l, l.entry);
  }

  lemma EraseSteps(s: State, t: nat)
    requires t < |s.threads| && s.threads[t].pc.CollectErase? && s.threads[t].entry < |s.entries| == |s.next|
    ensures var l, en := s.threads[t], s.entries[s.threads[t].entry];
      Step(s, t, Go) ==
      SetThread(s.(entries := s.entries[l.entry := en.(mapped := false)], next := s.next[l.entry := l.dead]), t,
                l.(pc := CollectNext, dead := l.entry, corpses := [l.entry] + l.corpses))
  {}

  lemma EraseCollects(r: State, s: State, t: nat)
    requires Inv(s) && Collecting(r, s, t) && s.threads[t].pc.CollectErase?
    ensures var s' := Step(s, t, Go); Collecting(r, s', t) && CollectRank(s', s'.threads[t]) < CollectRank(s, s.threads[t])
  {
    var l := s.threads[t];
    LookedOnce(s, t);
    EraseSteps(s, t);
    ErasedStands(r, s, l);
    StandsCollects(r, s, t, Step(s, t, Go), l.(pc := CollectNext, dead := l.entry, corpses := [l.entry] + l.corpses));
  }

  /** The next one to free is in its hands once. */
  lemma CorpseOnce(s: State, t: nat)
    requires Inv(s) && t < |s.threads| && s.threads[t].pc.CollectFree? && s.threads[t].corpses != []
    ensures var l := s.threads[t];
      && l.corpses[0] < |s.entries| == |s.next| && l.dead == l.corpses[0] && l.corpses[0] !in l.corpses[1..]
  {
    var l := s.threads[t];
    assert ThreadOk(s, l) && ThreadLinked(s.next, l);
    HandsOnce(s, t, l.corpses[0]);
    assert l.corpses == [l.corpses[0]] + l.corpses[1..];
    assert multiset(l.corpses[1..])[l.corpses[0]] == 0;
  }

  lemma FreedStands(r: State, s: State, l: Thread, dead: int)
    requires Stands(r, s, l) && l.pc.CollectFree? && l.corpses != [] && l.corpses[0] !in l.corpses[1..]
    requires l.corpses[0] < |r.entries| && r.entries[l.corpses[0]].queued && !r.entries[l.corpses[0]].freed
    ensures var e := l.corpses[0];
      Stands(r, s.(entries := s.entries[e := Freed(s.entries[e])]), l.(dead := dead, corpses := l.corpses[1..]))
  {
    var e := l.corpses[0];
    assert l.corpses == [e] + l.corpses[1..];
    assert forall k :: k in l.corpses <==> k == e || k in l.corpses[1..];
    assert StandsAt(r.entries[e], s.entries[e], l, e);
    assert Freed(Judged(r.entries[e])) == Collected(r.entries[e]);
  }

  lemma FreeSteps(s: State, t: nat)
    requires t < |s.threads| && s.threads[t].pc.CollectFree? && 0 <= s.threads[t].dead < |s.entries|
    ensures var l := s.threads[t];
      Step(s, t, Go) == SetThread(s.(entries := s.entries[l.dead := Freed(s.entries[l.dead])]), t,
                                  l.(dead := NextOf(s, l.dead), corpses := Rest(l.corpses)))
  {}

  lemma FreeCollects(r: State, s: State, t: nat)
    requires Inv(r) && AllIdle(r) && Inv(s) && Collecting(r, s, t) && s.threads[t].pc.CollectFree? && s.threads[t].corpses != []
    ensures var s' := Step(s, t, Go); Collecting(r, s', t) && CollectRank(s', s'.threads[t]) < CollectRank(s, s.threads[t])
  {
    var l := s.threads[t];
    CorpseOnce(s, t);
    AtRestListed(r, l.corpses[0]);
    FreedStands(r, s, l, NextOf(s, l.dead));
    FreeSteps(s, t);
    StandsCollects(r, s, t, Step(s, t, Go), l.(dead := NextOf(s, l.dead), corpses := l.corpses[1..]));
  }

  lemma NoneLeft(r: State, s: State, l: Thread)
    requires Inv(r) && AllIdle(r) && Stands(r, s, l) && l.pc.CollectFree? && l.corpses == []
    ensures forall e | 0 <= e < |r.entries| :: s.entries[e] == Collected(r.entries[e])
  {
    forall e | 0 <= e < |r.entries| ensures s.entries[e] == Collected(r.entries[e]) {
      AtRestListed(r, e);
      assert e !in Ahead(l);
    }
  }

  lemma FreedCollects(r: State, s: State, t: nat)
    requires Inv(r) && AllIdle(r) && Inv(s) && Collecting(r, s, t) && s.threads[t].pc.CollectFree? && s.threads[t].corpses == []
    ensures var s' := Step(s, t, Go); Collecting(r, s', t) && CollectRank(s', s'.threads[t]) < CollectRank(s, s.threads[t])
  {
    assert ThreadLinked(s.next, s.threads[t]);
    NoneLeft(r, s, s.threads[t]);
  }

  lemma StepCollects(r: State, s: State, t: nat)
    requires Inv(r) && AllIdle(r) && Inv(s) && Collecting(r, s, t) && !s.threads[t].pc.Idle?
    ensures var s' := Step(s, t, Go); Collecting(r, s', t) && CollectRank(s', s'.threads[t]) < CollectRank(s, s.threads[t])
  {
    var l := s.threads[t];
    if l.pc.CollectTake? {
      TakeCollects(r, s, t);
    } else if l.pc.CollectLock? {
      LockCollects(r, s, t);
    } else if l.pc.CollectNext? {
      NextCollects(r, s, t);
    } else if l.pc.CollectLook? {
      LookCollects(r, s, t);
    } else if l.pc.CollectErase? {
      EraseCollects(r, s, t);
    } else if l.corpses == [] {
      FreedCollects(r, s, t);
    } else {
      FreeCollects(r, s, t);
    }
  }

  lemma {:induction false} Collects(r: State, s: State, t: nat)
    requires Inv(r) && AllIdle(r) && Inv(s) && Collecting(r, s, t)
    ensures exists z :: ComesTo(s, t, false, z) && IsCollected(r, z)
    decreases CollectRank(s, s.threads[t])
  {
    if s.threads[t].pc.Idle? {
      LeadsHere(Alone(t, false), s);
    } else {
      StepCollects(r, s, t);
      StepKeeps(s, t, Go);
      Collects(r, Step(s, t, Go), t);
      var z :| ComesTo(Step(s, t, Go), t, false, z) && IsCollected(r, z);
      ComesFirst(s, t, false, z);
    }
  }

  lemma CollectBegins(r: State, t: nat)
    requires Inv(r) && AllIdle(r) && t < |r.threads|
    ensures Collecting(r, Step(r, t, Collect), t)
  {
    assert ThreadOk(r, r.threads[t]);
  }

  /** collect, begun when no thread is at work and met by none, frees exactly the
      entries that were queued and that nobody has, with a load parked in one of
      them, and lets those in use again be queued anew. */
  lemma CollectEnds(s: State, turns: seq<Turn>, t: nat)
    requires Initial(s) && AllIdle(Run(s, turns)) && t < |Run(s, turns).threads|
    ensures exists z :: ComesTo(Run(s, turns + [Turn(t, Collect)]), t, false, z) && IsCollected(Run(s, turns), z)
  {
    RunInv(s, turns);
    RunInv(s, turns + [Turn(t, Collect)]);
    RunBegins(s, turns, t, Collect);
    CollectBegins(Run(s, turns), t);
    Collects(Run(s, turns), Step(Run(s, turns), t, Collect), t);
  }
}
