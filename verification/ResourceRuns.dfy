/** What holds in every run of a resource cache, from none on. */
module ResourceRuns {
  import opened Counting
  import opened ResourceEntry
  import opened ResourceEffects
  import opened ResourceInvariant
  import opened ResourceLists

  // --- every step -----------------------------------------------------------

  lemma PushStepHands(s: State, t: nat, c: Choice, open: bool)
    requires OwnLinks(s, t) && InList(s.threads[t].pc) && !s.threads[t].pc.PushLink?
    requires !Locked(s.threads[t].pc) && !s.threads[t].pc.CollectFree?
    ensures HandsOn(s, t, PushStep(s, t, c, open), open)
  {
    match s.threads[t].pc
    case PushLoad => PushLoadHands(s, t, c, open);
    case PushSwap =>
      if s.head != s.threads[t].seen || c.Fail? {
        PushAgainHands(s, t, c, open);
      } else {
        PushSwapHands(s, t, c, open);
      }
    case CollectTake =>
      if s.head == NONE {
        CollectNoneHands(s, t, c, open);
      } else {
        CollectTakeHands(s, t, c, open);
      }
    case CollectLock => CollectLockHands(s, t, c, open);
  }

  lemma HandsOnKeeps(s: State, t: nat, s': State, open: bool)
    requires Inv(s) && OwnLinks(s, t) && HandsOn(s, t, s', open) && Apart(s.threads[t].pc)
    requires open ==> forall u | 0 <= u < |s.threads| :: !Locked(s.threads[u].pc) && !InSection(s.threads[u].pc)
    ensures Inv(s')
  {
    HandedKeeps(s, t, s'.threads[t], s');
  }

  lemma PushStepKeeps(s: State, t: nat, c: Choice, open: bool)
    requires Inv(s) && t < |s.threads| && InList(s.threads[t].pc)
    requires !Locked(s.threads[t].pc) && !s.threads[t].pc.CollectFree?
    requires open ==> forall u | 0 <= u < |s.threads| :: !Locked(s.threads[u].pc) && !InSection(s.threads[u].pc)
    ensures Inv(PushStep(s, t, c, open))
  {
    assert OwnLinks(s, t);
    var s' := PushStep(s, t, c, open);
    if s.threads[t].pc.PushLink? {
      HeldIs(s, t);
      PushLinkRelinks(s, t, c, open);
      RelinkedKeeps(s, t, s');
    } else {
      PushStepHands(s, t, c, open);
      HandsOnKeeps(s, t, s', open);
    }
  }

  lemma CollectNextKeeps(s: State, t: nat)
    requires Inv(s) && t < |s.threads| && s.threads[t].pc.CollectNext?
    ensures Inv(CollectStep(s, t))
  {
    assert OwnLinks(s, t);
    if s.threads[t].list == NONE {
      CollectUnlockHands(s, t, false);
    } else {
      CollectNextHands(s, t, false);
    }
    HandsOnKeeps(s, t, CollectStep(s, t), false);
  }

  lemma CollectLookKeeps(s: State, t: nat)
    requires Inv(s) && t < |s.threads| && s.threads[t].pc.CollectLook?
    ensures Inv(CollectStep(s, t))
  {
    assert OwnLinks(s, t);
    var e, s' := s.threads[t].entry, CollectStep(s, t);
    if s.entries[e].count == 0 {
      CollectGoesHands(s, t, false);
      HandsOnKeeps(s, t, s', false);
    } else {
      HeldIs(s, t);
      CollectSpareTakes(s, t);
      TakenKeeps(s, t, e, s');
    }
  }

  lemma CollectEraseKeeps(s: State, t: nat)
    requires Inv(s) && t < |s.threads| && s.threads[t].pc.CollectErase?
    ensures Inv(CollectStep(s, t))
  {
    assert OwnLinks(s, t);
    HeldIs(s, t);
    CollectEraseRelinks(s, t);
    RelinkedKeeps(s, t, CollectStep(s, t));
  }

  lemma CollectFreeKeeps(s: State, t: nat)
    requires Inv(s) && t < |s.threads| && s.threads[t].pc.CollectFree?
    ensures Inv(CollectStep(s, t))
  {
    assert OwnLinks(s, t);
    var s' := CollectStep(s, t);
    if s.threads[t].corpses == [] {
      CollectDoneHands(s, t, false);
      HandsOnKeeps(s, t, s', false);
    } else {
      CorpseIsHeld(s, t);
      CollectFreeTakes(s, t);
      TakenKeeps(s, t, s.threads[t].corpses[0], s');
    }
  }

  ghost predicate Added(s: State, t: nat, en: Entry, l: Thread, s': State) {
    && t < |s.threads| && s.threads[t].pc.Idle? && l.entry == |s.entries|
    && s'.entries == s.entries + [en] && s'.next == s.next + [NONE] && s'.head == s.head && s'.chain == s.chain
    && s'.threads == s.threads[t := l]
  }

  lemma NobodyAt(s: State, e: nat)
    requires Threads(s) && Lists(s) && |s.entries| <= e
    ensures Sum(OwnWeight(e), s.threads) == 0 && Sum(HoldWeight(e), s.threads) == 0
    ensures Sum(ReadWeight(e), s.threads) == 0 && Sum(AheadWeight(e), s.threads) == 0
  {
    forall l | l in s.threads ensures Uses(l.pc) ==> l.entry != e {
      assert ThreadOk(s, l);
    }
    SumZero(OwnWeight(e), s.threads);
    SumZero(HoldWeight(e), s.threads);
    SumZero(ReadWeight(e), s.threads);
    SumZero(AheadWeight(e), s.threads);
  }

  lemma AddedWords(s: State, t: nat, en: Entry, l: Thread, s': State)
    requires Added(s, t, en, l, s') && Words(s) && Threads(s) && Lists(s) && NewWord(en, l.pc)
    ensures Words(s')
  {
    forall e | 0 <= e < |s'.entries| ensures WordsAt(s'.entries[e], e, s'.threads) {
      SumUpdate(OwnWeight(e), s.threads, t, l);
      SumUpdate(HoldWeight(e), s.threads, t, l);
      SumUpdate(ReadWeight(e), s.threads, t, l);
      SumUpdate(AheadWeight(e), s.threads, t, l);
      if e == |s.entries| {
        NobodyAt(s, e);
      } else {
        assert WordsAt(s.entries[e], e, s.threads);
      }
    }
  }

  lemma AddedClaims(s: State, t: nat, en: Entry, l: Thread, s': State)
    requires Added(s, t, en, l, s') && Claims(s) && Loadings(s)
    requires en.claimed || WillClaim(l.pc)
    requires Underway(en) ==> Loads(l.pc)
    ensures Claims(s') && Loadings(s')
  {
    forall e | 0 <= e < |s'.entries| && !s'.entries[e].claimed && s'.entries[e].tasks == 0
      ensures exists u :: 0 <= u < |s'.threads| && s'.threads[u].entry == e && WillClaim(s'.threads[u].pc)
    {
      if e == |s.entries| {
        assert s'.threads[t].entry == e;
      } else {
        var u :| 0 <= u < |s.threads| && s.threads[u].entry == e && WillClaim(s.threads[u].pc);
        assert s'.threads[u] == s.threads[u];
      }
    }
    forall e | 0 <= e < |s'.entries| && Underway(s'.entries[e])
      ensures exists u :: 0 <= u < |s'.threads| && s'.threads[u].entry == e && Loads(s'.threads[u].pc)
    {
      if e == |s.entries| {
        assert s'.threads[t].entry == e;
      } else {
        var u :| 0 <= u < |s.threads| && s.threads[u].entry == e && Loads(s.threads[u].pc);
        assert s'.threads[u] == s.threads[u];
      }
    }
  }

  lemma AddedThreads(s: State, t: nat, en: Entry, l: Thread, s': State)
    requires Added(s, t, en, l, s') && Threads(s) && Parks(s) && Lists(s) && !en.parked
    requires ThreadOk(s', l)
    ensures Threads(s') && Parks(s')
  {
    forall u | 0 <= u < |s'.threads| ensures ThreadOk(s', s'.threads[u]) && ParkedAt(s', s'.threads[u]) {
      assert ThreadOk(s, s.threads[u]) && ParkedAt(s, s.threads[u]);
    }
  }

  lemma AddedLists(s: State, t: nat, en: Entry, l: Thread, s': State)
    requires Added(s, t, en, l, s') && Lists(s) && ThreadLinked(s'.next, l)
    ensures Lists(s')
  {
    LinkedGrows(s.next, s.head, s.chain, NONE);
    forall u | 0 <= u < |s'.threads| && u != t ensures ThreadLinked(s'.next, s'.threads[u]) {
      var k := s.threads[u];
      assert ThreadLinked(s.next, k);
      if k.pc.CollectLock? || Locked(k.pc) {
        LinkedGrows(s.next, k.list, k.mine, NONE);
      }
      if Locked(k.pc) || k.pc.CollectFree? {
        LinkedGrows(s.next, k.dead, k.corpses, NONE);
      }
    }
  }

  lemma NobodyHas(s: State, e: nat)
    requires Threads(s) && Lists(s) && |s.entries| <= e
    ensures multiset(s.chain)[e] + Sum(PlaceWeight(e), s.threads) == 0
  {
    LinkedGrows(s.next, s.head, s.chain, NONE);
    forall l | l in s.threads ensures PlaceWeight(e)(l) == 0 {
      assert ThreadOk(s, l) && ThreadLinked(s.next, l);
      if l.pc.CollectLock? || Locked(l.pc) {
        LinkedGrows(s.next, l.list, l.mine, NONE);
      }
      assert e !in l.mine && e !in l.corpses;
    }
    assert e !in s.chain;
    SumZero(PlaceWeight(e), s.threads);
  }

  lemma AddedPlaces(s: State, t: nat, en: Entry, l: Thread, s': State)
    requires Added(s, t, en, l, s') && Threads(s) && Lists(s) && Places(s) && Hands(l) == Hands(s.threads[t]) && !en.queued
    ensures Places(s')
  {
    forall e | 0 <= e < |s'.entries|
      ensures multiset(s'.chain)[e] + Sum(PlaceWeight(e), s'.threads) == Bool(s'.entries[e].queued && !s'.entries[e].freed)
    {
      SumUpdate(PlaceWeight(e), s.threads, t, l);
      if e == |s.entries| {
        NobodyHas(s, e);
      }
    }
  }

  predicate NewWord(en: Entry, pc: Pc) {
    && EntryOk(en) && en.count == en.handles + en.tasks + en.files + Own(pc)
    && Bool(!en.claimed) + Bool(en.parked) + Bool(Holds(pc)) == Bool(en.pending)
    && en.files + Bool(Reads(pc)) + Bool(en.left) <= 1
    && en.tasks + Bool(en.parked) + en.files + Bool(TaskAhead(pc)) <= 1
    && (en.claimed || WillClaim(pc)) && (Underway(en) ==> Loads(pc)) && !en.parked && !en.queued
  }

  /** What a new entry and its thread have to be. */
  ghost predicate MayAdd(s: State, t: nat, en: Entry, l: Thread, s': State) {
    && Added(s, t, en, l, s') && NewWord(en, l.pc)
    && ThreadOk(s', l) && ThreadLinked(s'.next, l) && Hands(l) == Hands(s.threads[t])
    && !Locked(l.pc) && !InSection(l.pc)
  }

  /** A new entry with its load left in it for a task, or without one: the
      thread fills it, or has its file read. */
  predicate MayBegin(en: Entry, pc: Pc) {
    && en.handles == en.tasks == en.files == en.runs == 0 && !en.parked && !en.queued && !en.freed && en.mapped
    && (if pc.PushTask? then en.count == 2 && !en.claimed && en.pending && en.left
        else ((pc.DirectFill? && en.count == 1) || (pc.MakeRead? && en.count == 2)) && en.claimed && !en.pending && !en.left)
  }

  lemma BeginAdds(s: State, t: nat, en: Entry, l: Thread, s': State)
    requires OwnLinks(s, t) && Added(s, t, en, l, s') && MayBegin(en, l.pc)
    requires l == Start(s.threads[t], l.pc, |s.entries|, Bind)
    ensures MayAdd(s, t, en, l, s')
  {
    BeginThread(s, t, en, l, s');
    BeginWord(en, l.pc);
  }

  lemma BeginWord(en: Entry, pc: Pc)
    requires MayBegin(en, pc)
    ensures NewWord(en, pc) && !Locked(pc) && !InSection(pc)
  {}

  lemma BeginThread(s: State, t: nat, en: Entry, l: Thread, s': State)
    requires OwnLinks(s, t) && Added(s, t, en, l, s') && MayBegin(en, l.pc)
    requires l == Start(s.threads[t], l.pc, |s.entries|, Bind)
    ensures ThreadOk(s', l) && ThreadLinked(s'.next, l) && Hands(l) == Hands(s.threads[t])
  {}

  lemma MakeAdds(s: State, t: nat, c: Choice)
    requires OwnLinks(s, t) && s.threads[t].pc.Idle? && Makes(c)
    ensures var s' := MakeStep(s, t, c);
            |s'.threads| == |s.threads| && |s'.entries| == |s.entries| + 1 &&
            MayAdd(s, t, s'.entries[|s.entries|], s'.threads[t], s')
  {
    var s' := MakeStep(s, t, c);
    BeginAdds(s, t, s'.entries[|s.entries|], s'.threads[t], s');
  }

  lemma MakeKeeps(s: State, t: nat, c: Choice)
    requires Inv(s) && t < |s.threads| && s.threads[t].pc.Idle? && Makes(c)
    ensures Inv(MakeStep(s, t, c))
  {
    assert OwnLinks(s, t);
    var s' := MakeStep(s, t, c);
    MakeAdds(s, t, c);
    AddedKeeps(s, t, s'.entries[|s.entries|], s'.threads[t], s');
  }

  lemma AddedKeeps(s: State, t: nat, en: Entry, l: Thread, s': State)
    requires Inv(s) && MayAdd(s, t, en, l, s')
    ensures Inv(s')
  {
    AddedWords(s, t, en, l, s');
    AddedClaims(s, t, en, l, s');
    AddedThreads(s, t, en, l, s');
    AddedLists(s, t, en, l, s');
    AddedPlaces(s, t, en, l, s');
    KeepsSections(s, t, l, s');
  }

  lemma CollectBeginKeeps(s: State, t: nat, c: Choice)
    requires Inv(s) && t < |s.threads| && s.threads[t].pc.Idle? && c.Collect?
    ensures Inv(Step(s, t, c))
  {
    assert OwnLinks(s, t);
    SetThreadHands(s, t, s.threads[t].(pc := CollectTake), false);
    HandsOnKeeps(s, t, SetThread(s, t, s.threads[t].(pc := CollectTake)), false);
  }

  lemma MakeStepKeeps(s: State, t: nat, c: Choice)
    requires Inv(s) && t < |s.threads| && s.threads[t].pc.Idle? && Makes(c)
    ensures Inv(Step(s, t, c))
  {
    MakeKeeps(s, t, c);
  }

  lemma CollectStepKeeps(s: State, t: nat)
    requires Inv(s) && t < |s.threads| && (Locked(s.threads[t].pc) || s.threads[t].pc.CollectFree?)
    ensures Inv(CollectStep(s, t))
  {
    match s.threads[t].pc
    case CollectNext => CollectNextKeeps(s, t);
    case CollectLook => CollectLookKeeps(s, t);
    case CollectErase => CollectEraseKeeps(s, t);
    case CollectFree => CollectFreeKeeps(s, t);
  }

  ghost predicate AllOpen(s: State) {
    forall u | 0 <= u < |s.threads| :: !Locked(s.threads[u].pc) && !InSection(s.threads[u].pc)
  }

  lemma StepIsPush(s: State, t: nat, c: Choice) returns (open: bool)
    requires t < |s.threads| && InList(s.threads[t].pc) && !Locked(s.threads[t].pc) && !s.threads[t].pc.CollectFree?
    ensures Step(s, t, c) == PushStep(s, t, c, open) && (open ==> AllOpen(s))
  {
    var unlocked := forall u | 0 <= u < |s.threads| :: !Locked(s.threads[u].pc);
    var shut := exists u :: 0 <= u < |s.threads| && InSection(s.threads[u].pc);
    open := unlocked && !shut;
  }

  lemma ListStepsKeep(s: State, t: nat, c: Choice)
    requires Inv(s) && t < |s.threads| && InList(s.threads[t].pc)
    ensures Inv(Step(s, t, c))
  {
    var pc := s.threads[t].pc;
    if Locked(pc) || pc.CollectFree? {
      CollectStepKeeps(s, t);
    } else {
      var open := StepIsPush(s, t, c);
      PushStepKeeps(s, t, c, open);
    }
  }

  /** Every step of every thread keeps the invariant. */
  lemma StepKeeps(s: State, t: nat, c: Choice)
    requires Inv(s) && t < |s.threads|
    ensures Inv(Step(s, t, c))
  {
    if InList(s.threads[t].pc) {
      ListStepsKeep(s, t, c);
    } else if s.threads[t].pc.Idle? && c.Collect? {
      CollectBeginKeeps(s, t, c);
    } else if s.threads[t].pc.Idle? && Makes(c) {
      MakeStepKeeps(s, t, c);
    } else {
      WordStepKeeps(s, t, c);
    }
  }

  // --- runs -----------------------------------------------------------------

  datatype Turn = Turn(thread: nat, choice: Choice)

  predicate Initial(s: State) {
    && s.entries == [] && s.next == [] && s.head == NONE && s.chain == []
    && (forall t | 0 <= t < |s.threads| ::
          s.threads[t].pc.Idle? && s.threads[t].mine == [] && s.threads[t].corpses == [] && s.threads[t].dead == NONE)
  }

  /** The state after the turns, in any interleaving; a turn of no thread does nothing. */
  function Run(s: State, turns: seq<Turn>): State {
    if turns == [] then s
    else
      var before := Run(s, turns[..|turns| - 1]);
      var last := turns[|turns| - 1];
      if last.thread < |before.threads| then Step(before, last.thread, last.choice) else before
  }

  lemma InitialInv(s: State)
    requires Initial(s)
    ensures Inv(s)
  {
    assert forall t | 0 <= t < |s.threads| :: ThreadOk(s, s.threads[t]) && ThreadLinked(s.next, s.threads[t]);
  }

  lemma {:induction false} RunInv(s: State, turns: seq<Turn>)
    requires Initial(s)
    ensures Inv(Run(s, turns))
  {
    if turns == [] {
      InitialInv(s);
    } else {
      RunInv(s, turns[..|turns| - 1]);
      var before := Run(s, turns[..|turns| - 1]);
      var last := turns[|turns| - 1];
      if last.thread < |before.threads| {
        StepKeeps(before, last.thread, last.choice);
      }
    }
  }

  /** No thread is at work on an entry that was freed, and no list leads to
      one; only entries without a count are freed. */
  lemma FreedIsUntouched(s: State, turns: seq<Turn>, t: nat, e: nat)
    requires Initial(s) && t < |Run(s, turns).threads|
    requires e < |Run(s, turns).entries| && Run(s, turns).entries[e].freed
    ensures var r := Run(s, turns); var l := r.threads[t];
      && (Uses(l.pc) ==> l.entry != e)
      && e !in l.mine && e !in l.corpses && e !in r.chain
      && (l.pc.CollectLock? || Locked(l.pc) ==> l.list != e) && l.dead != e && r.head != e
      && r.entries[e].count == 0 && !r.entries[e].mapped
  {
    RunInv(s, turns);
    var r := Run(s, turns);
    var l := r.threads[t];
    assert WordsAt(r.entries[e], e, r.threads) && ThreadOk(r, l) && ThreadLinked(r.next, l);
    if l.entry == e {
      Unowned(r, e, t);
    }
    SumAtLeast(PlaceWeight(e), r.threads, t);
    assert PlaceWeight(e)(l) == Hands(l)[e] == 0 && multiset(r.chain)[e] == 0;
  }

  /** The load left in an entry is run, failed or freed once: whoever does it
      finds it, and an entry that is freed has none left. */
  lemma LoadRunsOnce(s: State, turns: seq<Turn>, e: nat)
    requires Initial(s) && e < |Run(s, turns).entries|
    ensures var r := Run(s, turns); var en := r.entries[e];
      && en.runs + Bool(en.pending) == Bool(en.left)
      && (en.freed ==> en.runs == Bool(en.left))
      && (forall t | 0 <= t < |r.threads| && r.threads[t].entry == e && Holds(r.threads[t].pc) ::
            && en.pending && en.claimed && !en.parked
            && (forall u | 0 <= u < |r.threads| && u != t && r.threads[u].entry == e :: !Holds(r.threads[u].pc)))
  {
    RunInv(s, turns);
    var r := Run(s, turns);
    assert WordsAt(r.entries[e], e, r.threads);
    forall t | 0 <= t < |r.threads| && r.threads[t].entry == e && Holds(r.threads[t].pc)
      ensures r.entries[e].pending && r.entries[e].claimed && !r.entries[e].parked
      ensures forall u | 0 <= u < |r.threads| && u != t && r.threads[u].entry == e :: !Holds(r.threads[u].pc)
    {
      SumAtLeast(HoldWeight(e), r.threads, t);
      forall u | 0 <= u < |r.threads| && u != t && r.threads[u].entry == e ensures !Holds(r.threads[u].pc) {
        SumAtLeastTwo(HoldWeight(e), r.threads, if t < u then t else u, if t < u then u else t);
      }
    }
  }

  /** A parked entry has no handle, task or read; a count it has is that of a
      thread that finds it right now, or of whichever task parked it. */
  lemma ParkedIsAlone(s: State, turns: seq<Turn>, e: nat)
    requires Initial(s) && e < |Run(s, turns).entries| && Run(s, turns).entries[e].parked
    ensures var r := Run(s, turns); var en := r.entries[e];
      && en.handles == en.tasks == en.files == 0
      && (en.count > 0 ==> exists t :: 0 <= t < |r.threads| && r.threads[t].entry == e && MidStep(r.threads[t].pc))
  {
    RunInv(s, turns);
    var r := Run(s, turns);
    assert WordsAt(r.entries[e], e, r.threads);
    if r.entries[e].count > 0 {
      var t := SumPositive(OwnWeight(e), r.threads);
      assert ParkedAt(r, r.threads[t]);
    }
  }

  /** The link nextWaiting serves one task at a time. */
  lemma OneTaskWaits(s: State, turns: seq<Turn>, e: nat)
    requires Initial(s) && e < |Run(s, turns).entries|
    ensures var r := Run(s, turns);
      && r.entries[e].tasks <= 1
      && (forall t | 0 <= t < |r.threads| && r.threads[t].entry == e && (r.threads[t].pc.PushTask? || r.threads[t].pc.ReadPush?) ::
            r.entries[e].tasks == 0)
  {
    RunInv(s, turns);
    var r := Run(s, turns);
    assert WordsAt(r.entries[e], e, r.threads);
    forall t | 0 <= t < |r.threads| && r.threads[t].entry == e && (r.threads[t].pc.PushTask? || r.threads[t].pc.ReadPush?)
      ensures r.entries[e].tasks == 0
    {
      SumAtLeast(AheadWeight(e), r.threads, t);
    }
  }

  predicate AllIdle(s: State) { forall t | 0 <= t < |s.threads| :: s.threads[t].pc.Idle? }

  lemma NobodyAtWork(s: State, e: nat)
    requires AllIdle(s) && Words(s) && e < |s.entries|
    ensures var en := s.entries[e];
      && en.count == en.handles + en.tasks + en.files
      && Bool(!en.claimed) + Bool(en.parked) == Bool(en.pending)
      && (en.parked ==> en.handles == 0)
  {
    assert WordsAt(s.entries[e], e, s.threads);
    SumZero(OwnWeight(e), s.threads);
    SumZero(HoldWeight(e), s.threads);
  }

  lemma NobodyLoads(s: State, e: nat)
    requires AllIdle(s) && Claims(s) && Loadings(s) && e < |s.entries| && s.entries[e].tasks == s.entries[e].files == 0
    ensures s.entries[e].claimed && !Underway(s.entries[e])
  {}

  /** No load is lost: once no thread is at work and no task or read is left, a
      resource that still loads is parked, without a handle. */
  lemma AtRestNoLoadIsLost(s: State, turns: seq<Turn>, e: nat)
    requires Initial(s) && AllIdle(Run(s, turns)) && e < |Run(s, turns).entries|
    requires var en := Run(s, turns).entries[e]; !en.freed && en.tasks == 0 && en.files == 0
    ensures var en := Run(s, turns).entries[e];
      && en.count == en.handles
      && (en.state.Loading? ==> en.parked && en.pending && en.handles == 0)
  {
    RunInv(s, turns);
    var r := Run(s, turns);
    NobodyAtWork(r, e);
    NobodyLoads(r, e);
  }

  /** And the unused list has every entry nobody has, once, for the next
      collect; an entry somebody has is in a map. */
  lemma AtRestUnusedIsListed(s: State, turns: seq<Turn>, e: nat)
    requires Initial(s) && AllIdle(Run(s, turns)) && e < |Run(s, turns).entries| && !Run(s, turns).entries[e].freed
    ensures var r := Run(s, turns); var en := r.entries[e];
      && Linked(r.next, r.head, r.chain)
      && multiset(r.chain)[e] == Bool(en.queued)
      && (en.count == 0 ==> en.queued) && (en.count > 0 ==> en.mapped)
  {
    RunInv(s, turns);
    var r := Run(s, turns);
    assert WordsAt(r.entries[e], e, r.threads);
    forall l | l in r.threads ensures PlaceWeight(e)(l) == 0 {
      assert ThreadOk(r, l);
    }
    SumZero(PlaceWeight(e), r.threads);
  }
}
