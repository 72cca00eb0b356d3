/** What the steps of the unused list and of collect keep, and those that make an entry. */
module ResourceLists {
  import opened Counting
  import opened ResourceEntry
  import opened ResourceEffects
  import opened ResourceInvariant

  // --- a list step leaves words and threads at work alone -------------------

  /** Takes no part in what the words say. */
  predicate Apart(pc: Pc) { pc.Idle? || InList(pc) }

  /** The same for everybody but the lists and the maps. */
  predicate SameWord(a: Entry, b: Entry) {
    && b.count == a.count && b.handles == a.handles && b.tasks == a.tasks && b.files == a.files
    && b.claimed == a.claimed && b.state == a.state && b.left == a.left
    && Bool(b.pending) + Bool(a.parked) == Bool(a.pending) + Bool(b.parked)
    && (b.parked ==> a.parked) && (b.freed || (b.parked == a.parked && !a.freed))
    && EntryOk(b)
  }

  ghost predicate ListStepped(s: State, t: nat, l: Thread, s': State) {
    && t < |s.threads| && Apart(s.threads[t].pc) && Apart(l.pc)
    && s'.threads == s.threads[t := l]
    && |s'.entries| == |s.entries|
    && (forall e | 0 <= e < |s.entries| :: s'.entries[e] == s.entries[e] || SameWord(s.entries[e], s'.entries[e]))
  }

  lemma ListStepWords(s: State, t: nat, l: Thread, s': State)
    requires ListStepped(s, t, l, s') && Words(s)
    ensures Words(s')
  {
    forall e | 0 <= e < |s'.entries| ensures WordsAt(s'.entries[e], e, s'.threads) {
      assert WordsAt(s.entries[e], e, s.threads);
      ApartWeighsNothing(s, t, l, e);
    }
  }

  lemma ApartWeighsNothing(s: State, t: nat, l: Thread, e: nat)
    requires t < |s.threads| && Apart(s.threads[t].pc) && Apart(l.pc)
    ensures var threads := s.threads[t := l];
      && Sum(OwnWeight(e), threads) == Sum(OwnWeight(e), s.threads)
      && Sum(HoldWeight(e), threads) == Sum(HoldWeight(e), s.threads)
      && Sum(ReadWeight(e), threads) == Sum(ReadWeight(e), s.threads)
      && Sum(AheadWeight(e), threads) == Sum(AheadWeight(e), s.threads)
  {
    SumUpdate(OwnWeight(e), s.threads, t, l);
    SumUpdate(HoldWeight(e), s.threads, t, l);
    SumUpdate(ReadWeight(e), s.threads, t, l);
    SumUpdate(AheadWeight(e), s.threads, t, l);
  }

  lemma ListStepParks(s: State, t: nat, l: Thread, s': State)
    requires ListStepped(s, t, l, s') && Parks(s)
    ensures Parks(s')
  {
    assert forall u | 0 <= u < |s.threads| :: ParkedAt(s, s.threads[u]);
  }

  lemma ListStepClaims(s: State, t: nat, l: Thread, s': State)
    requires ListStepped(s, t, l, s') && Claims(s)
    ensures Claims(s')
  {
    forall e | 0 <= e < |s'.entries| && !s'.entries[e].claimed && s'.entries[e].tasks == 0
      ensures exists u :: 0 <= u < |s'.threads| && s'.threads[u].entry == e && WillClaim(s'.threads[u].pc)
    {
      var u :| 0 <= u < |s.threads| && s.threads[u].entry == e && WillClaim(s.threads[u].pc);
      assert s'.threads[u] == s.threads[u];
    }
  }

  lemma ListStepLoadings(s: State, t: nat, l: Thread, s': State)
    requires ListStepped(s, t, l, s') && Loadings(s)
    ensures Loadings(s')
  {
    forall e | 0 <= e < |s'.entries| && Underway(s'.entries[e])
      ensures exists u :: 0 <= u < |s'.threads| && s'.threads[u].entry == e && Loads(s'.threads[u].pc)
    {
      var u :| 0 <= u < |s.threads| && s.threads[u].entry == e && Loads(s.threads[u].pc);
      assert s'.threads[u] == s.threads[u];
    }
  }

  lemma ListStepKeeps(s: State, t: nat, l: Thread, s': State)
    requires Inv(s) && ListStepped(s, t, l, s')
    requires Threads(s') && Sections(s') && Lists(s') && Places(s')
    ensures Inv(s')
  {
    ListStepWords(s, t, l, s');
    ListStepParks(s, t, l, s');
    ListStepClaims(s, t, l, s');
    ListStepLoadings(s, t, l, s');
  }

  // --- lists ----------------------------------------------------------------

  lemma {:induction false} LinkedStays(next: seq<int>, head: int, chain: seq<nat>, e: nat, v: int)
    requires Linked(next, head, chain) && e < |next| && e !in chain
    ensures Linked(next[e := v], head, chain)
    decreases |chain|
  {
    if chain != [] {
      LinkedStays(next, next[chain[0]], chain[1..], e, v);
    }
  }

  lemma {:induction false} LinkedGrows(next: seq<int>, head: int, chain: seq<nat>, v: int)
    requires Linked(next, head, chain)
    ensures Linked(next + [v], head, chain)
    ensures forall e | e in chain :: e < |next|
    decreases |chain|
  {
    if chain != [] {
      LinkedGrows(next, next[chain[0]], chain[1..], v);
      assert chain == [chain[0]] + chain[1..];
    }
  }

  lemma LinkedCons(next: seq<int>, head: int, chain: seq<nat>, e: nat)
    requires Linked(next, head, chain) && e < |next| && next[e] == head
    ensures Linked(next, e, [e] + chain)
  {
    assert ([e] + chain)[1..] == chain;
  }

  /** The thread that holds an entry is the only place it is in. */
  lemma Alone(s: State, t: nat)
    requires Places(s) && t < |s.threads| && HoldsPlace(s.threads[t].pc) && s.threads[t].entry < |s.entries|
    ensures var e := s.threads[t].entry;
      && e !in s.chain && s.entries[e].queued && !s.entries[e].freed
      && (forall u | 0 <= u < |s.threads| ::
            && e !in s.threads[u].mine && e !in s.threads[u].corpses
            && (u != t && HoldsPlace(s.threads[u].pc) ==> s.threads[u].entry != e))
  {
    var e := s.threads[t].entry;
    SumAtLeast(PlaceWeight(e), s.threads, t);
    forall u | 0 <= u < |s.threads|
      ensures e !in s.threads[u].mine && e !in s.threads[u].corpses
      ensures u != t && HoldsPlace(s.threads[u].pc) ==> s.threads[u].entry != e
    {
      if u != t {
        SumAtLeastTwo(PlaceWeight(e), s.threads, if t < u then t else u, if t < u then u else t);
      }
    }
  }

  // --- steps that leave the entries and their links as they are -------------

  ghost predicate Handed(s: State, t: nat, l: Thread, s': State)
    requires t < |s.threads|
  {
    && s'.entries == s.entries && s'.next == s.next && s'.threads == s.threads[t := l]
    && multiset(s'.chain) + Hands(l) == multiset(s.chain) + Hands(s.threads[t])
    && Linked(s.next, s'.head, s'.chain) && ThreadLinked(s.next, l)
  }

  lemma HandedThreads(s: State, t: nat, l: Thread, s': State)
    requires Threads(s) && Lists(s) && t < |s.threads| && Handed(s, t, l, s') && ThreadOk(s, l)
    ensures Threads(s') && Lists(s')
  {
    forall u | 0 <= u < |s'.threads| ensures ThreadOk(s', s'.threads[u]) && ThreadLinked(s'.next, s'.threads[u]) {
      assert ThreadOk(s, if u == t then l else s.threads[u]);
    }
  }

  lemma HandedPlaces(s: State, t: nat, l: Thread, s': State)
    requires Places(s) && t < |s.threads| && Handed(s, t, l, s')
    ensures Places(s')
  {
    forall e | 0 <= e < |s.entries|
      ensures multiset(s'.chain)[e] + PlaceWeight(e)(l) == multiset(s.chain)[e] + PlaceWeight(e)(s.threads[t])
    {
      assert (multiset(s'.chain) + Hands(l))[e] == (multiset(s.chain) + Hands(s.threads[t]))[e];
    }
    KeepsPlaces(s, t, l, s');
  }

  lemma HandedKeeps(s: State, t: nat, l: Thread, s': State)
    requires Inv(s) && t < |s.threads| && Handed(s, t, l, s') && ThreadOk(s, l)
    requires Apart(s.threads[t].pc) && Apart(l.pc) && !InSection(l.pc)
    requires Locked(l.pc) ==> Locked(s.threads[t].pc)
                              || (forall u | 0 <= u < |s.threads| :: !Locked(s.threads[u].pc) && !InSection(s.threads[u].pc))
    ensures Inv(s')
  {
    HandedThreads(s, t, l, s');
    HandedPlaces(s, t, l, s');
    ListStepKeeps(s, t, l, s');
  }

  /** What the step of a thread at a list needs to know: its own links. */
  ghost predicate OwnLinks(s: State, t: nat) {
    && t < |s.threads| && ThreadOk(s, s.threads[t]) && ThreadLinked(s.next, s.threads[t])
    && Linked(s.next, s.head, s.chain) && |s.next| == |s.entries|
  }

  ghost predicate HandsOn(s: State, t: nat, s': State, open: bool)
    requires OwnLinks(s, t)
  {
    && |s'.threads| == |s.threads|
    && var l := s'.threads[t];
    && Handed(s, t, l, s') && ThreadOk(s, l) && Apart(l.pc)
    && (Locked(l.pc) ==> Locked(s.threads[t].pc) || open)
  }

  lemma SetThreadHands(s: State, t: nat, l: Thread, open: bool)
    requires OwnLinks(s, t) && ThreadOk(s, l) && ThreadLinked(s.next, l) && Apart(l.pc)
    requires l.mine == s.threads[t].mine && l.corpses == s.threads[t].corpses
    requires HoldsPlace(l.pc) == HoldsPlace(s.threads[t].pc) && (HoldsPlace(l.pc) ==> l.entry == s.threads[t].entry)
    requires Locked(l.pc) ==> Locked(s.threads[t].pc) || open
    ensures HandsOn(s, t, SetThread(s, t, l), open)
  {}

  lemma PushLoadHands(s: State, t: nat, c: Choice, open: bool)
    requires OwnLinks(s, t) && s.threads[t].pc.PushLoad?
    ensures HandsOn(s, t, PushStep(s, t, c, open), open)
  {
    SetThreadHands(s, t, s.threads[t].(pc := PushLink, seen := s.head), open);
  }

  lemma PushAgainHands(s: State, t: nat, c: Choice, open: bool)
    requires OwnLinks(s, t) && s.threads[t].pc.PushSwap? && (s.head != s.threads[t].seen || c.Fail?)
    ensures HandsOn(s, t, PushStep(s, t, c, open), open)
  {
    SetThreadHands(s, t, s.threads[t].(pc := PushLink, seen := s.head), open);
  }

  lemma PushSwapHands(s: State, t: nat, c: Choice, open: bool)
    requires OwnLinks(s, t) && s.threads[t].pc.PushSwap? && s.head == s.threads[t].seen && !c.Fail?
    ensures HandsOn(s, t, PushStep(s, t, c, open), open)
  {
    var e := s.threads[t].entry;
    LinkedCons(s.next, s.head, s.chain, e);
    assert multiset([e] + s.chain) == multiset{e} + multiset(s.chain);
    assert PushStep(s, t, c, open) == SetThread(s.(head := e, chain := [e] + s.chain), t, s.threads[t].(pc := Idle));
  }

  lemma CollectNoneHands(s: State, t: nat, c: Choice, open: bool)
    requires OwnLinks(s, t) && s.threads[t].pc.CollectTake? && s.head == NONE
    ensures HandsOn(s, t, PushStep(s, t, c, open), open)
  {
    assert s.chain == [];
    SetThreadHands(s, t, s.threads[t].(pc := Idle), open);
    assert PushStep(s, t, c, open) == SetThread(s, t, s.threads[t].(pc := Idle));
  }

  lemma CollectTakeHands(s: State, t: nat, c: Choice, open: bool)
    requires OwnLinks(s, t) && s.threads[t].pc.CollectTake? && s.head != NONE
    ensures HandsOn(s, t, PushStep(s, t, c, open), open)
  {
    assert s.threads[t].mine == [] && s.threads[t].corpses == [] && s.threads[t].dead == NONE;
  }

  lemma CollectLockHands(s: State, t: nat, c: Choice, open: bool)
    requires OwnLinks(s, t) && s.threads[t].pc.CollectLock?
    ensures HandsOn(s, t, PushStep(s, t, c, open), open)
  {
    SetThreadHands(s, t, if open then s.threads[t].(pc := CollectNext) else s.threads[t], open);
  }

  /** The next entry of the list of a collect, taken from its front. */
  lemma CollectNextHands(s: State, t: nat, open: bool)
    requires OwnLinks(s, t) && s.threads[t].pc.CollectNext? && s.threads[t].list != NONE
    ensures HandsOn(s, t, CollectStep(s, t), open)
  {
    var l := s.threads[t];
    FrontOfMine(s.next, l.list, l.mine);
    assert CollectStep(s, t) ==
      SetThread(s, t, l.(pc := CollectLook, entry := l.list, list := NextOf(s, l.list), mine := Rest(l.mine)));
  }

  lemma FrontOfMine(next: seq<int>, list: int, mine: seq<nat>)
    requires Linked(next, list, mine) && list != NONE
    ensures mine != [] && list == mine[0] && mine[0] < |next| && Linked(next, next[mine[0]], Rest(mine))
    ensures multiset(mine) == multiset{mine[0]} + multiset(Rest(mine))
  {
    assert mine == [mine[0]] + mine[1..];
  }

  lemma CollectUnlockHands(s: State, t: nat, open: bool)
    requires OwnLinks(s, t) && s.threads[t].pc.CollectNext? && s.threads[t].list == NONE
    ensures HandsOn(s, t, CollectStep(s, t), open)
  {
    SetThreadHands(s, t, s.threads[t].(pc := CollectFree), open);
  }

  // --- steps that write a link or an entry ----------------------------------

  lemma LinkKeepsLists(s: State, t: nat, v: int)
    requires Lists(s) && Places(s) && t < |s.threads| && HoldsPlace(s.threads[t].pc) && s.threads[t].entry < |s.entries|
    ensures var next := s.next[s.threads[t].entry := v];
      && Linked(next, s.head, s.chain)
      && (forall u | 0 <= u < |s.threads| :: ThreadLinked(next, s.threads[u]))
  {
    var e := s.threads[t].entry;
    Alone(s, t);
    LinkedStays(s.next, s.head, s.chain, e, v);
    forall u | 0 <= u < |s.threads| ensures ThreadLinked(s.next[e := v], s.threads[u]) {
      var l := s.threads[u];
      assert ThreadLinked(s.next, l);
      if l.pc.CollectLock? || Locked(l.pc) {
        LinkedStays(s.next, l.list, l.mine, e, v);
      }
      if Locked(l.pc) || l.pc.CollectFree? {
        LinkedStays(s.next, l.dead, l.corpses, e, v);
      }
    }
  }


  /** A link written, by the thread that holds the entry: to queue it, or to
      keep it for its end once it is out of the map. */
  ghost predicate Relinked(s: State, t: nat, l: Thread, s': State) {
    && t < |s.threads| && |s.next| == |s'.next| == |s.entries|
    && var l0 := s.threads[t];
    && HoldsPlace(l0.pc) && l0.entry < |s.entries|
    && s'.next == s.next[l0.entry := s'.next[l0.entry]]
    && s'.threads == s.threads[t := l] && s'.head == s.head && s'.chain == s.chain
    && (s'.entries == s.entries ||
        (Locked(l0.pc) && s'.entries == s.entries[l0.entry := s.entries[l0.entry].(mapped := false)]))
  }

  lemma RelinkedThreads(s: State, t: nat, l: Thread, s': State)
    requires Relinked(s, t, l, s') && Threads(s) && Sections(s) && Places(s) && ThreadOk(s', l)
    ensures Threads(s')
  {
    Alone(s, t);
    forall u | 0 <= u < |s'.threads| ensures ThreadOk(s', s'.threads[u]) {
      assert ThreadOk(s, s.threads[u]);
    }
  }

  lemma RelinkedLists(s: State, t: nat, l: Thread, s': State)
    requires Relinked(s, t, l, s') && Lists(s) && Places(s)
    requires (forall u | 0 <= u < |s.threads| :: ThreadLinked(s'.next, s.threads[u])) ==> ThreadLinked(s'.next, l)
    ensures Lists(s')
  {
    LinkKeepsLists(s, t, s'.next[s.threads[t].entry]);
  }

  lemma RelinkedPlaces(s: State, t: nat, l: Thread, s': State)
    requires Relinked(s, t, l, s') && Places(s) && Hands(l) == Hands(s.threads[t])
    ensures Places(s')
  {
    KeepsPlaces(s, t, l, s');
  }

  ghost predicate MayRelink(s: State, t: nat, s': State) {
    && t < |s.threads| == |s'.threads|
    && var l0, l := s.threads[t], s'.threads[t];
    && Relinked(s, t, l, s') && Apart(l.pc) && !InSection(l.pc) && (Locked(l.pc) ==> Locked(l0.pc))
    && ThreadOk(s', l) && (ThreadLinked(s'.next, l0) ==> ThreadLinked(s'.next, l))
    && Hands(l) == Hands(l0)
    && SameWord(s.entries[l0.entry], s'.entries[l0.entry])
  }

  lemma RelinkedSteps(s: State, t: nat, l: Thread, s': State)
    requires Relinked(s, t, l, s') && Apart(l.pc) && SameWord(s.entries[s.threads[t].entry], s'.entries[s.threads[t].entry])
    ensures ListStepped(s, t, l, s')
  {
    var e0 := s.threads[t].entry;
    forall e | 0 <= e < |s.entries| ensures s'.entries[e] == s.entries[e] || SameWord(s.entries[e], s'.entries[e]) {
      assert e == e0 || s'.entries[e] == s.entries[e];
    }
  }

  lemma RelinkedAll(s: State, t: nat, s': State)
    requires MayRelink(s, t, s') && Threads(s) && Sections(s) && Places(s) && Lists(s)
    ensures Threads(s') && Sections(s') && Places(s') && Lists(s')
  {
    var l := s'.threads[t];
    RelinkedThreads(s, t, l, s');
    RelinkedLists(s, t, l, s');
    RelinkedPlaces(s, t, l, s');
    KeepsSections(s, t, l, s');
  }

  lemma RelinkedKeeps(s: State, t: nat, s': State)
    requires Inv(s) && MayRelink(s, t, s')
    ensures Inv(s')
  {
    RelinkedAll(s, t, s');
    RelinkedSteps(s, t, s'.threads[t], s');
    ListStepKeeps(s, t, s'.threads[t], s');
  }

  /** An entry some thread has in hand. */
  predicate Held(en: Entry) { EntryOk(en) && en.queued && !en.freed }

  lemma HeldIs(s: State, t: nat)
    requires Words(s) && Places(s) && t < |s.threads| && HoldsPlace(s.threads[t].pc) && s.threads[t].entry < |s.entries|
    ensures Held(s.entries[s.threads[t].entry])
  {
    Alone(s, t);
    assert WordsAt(s.entries[s.threads[t].entry], s.threads[t].entry, s.threads);
  }

  lemma PushLinkRelinks(s: State, t: nat, c: Choice, open: bool)
    requires OwnLinks(s, t) && s.threads[t].pc.PushLink? && Held(s.entries[s.threads[t].entry])
    ensures MayRelink(s, t, PushStep(s, t, c, open))
  {}

  lemma ErasedWord(en: Entry)
    requires Held(en) && en.count == 0
    ensures SameWord(en, en.(mapped := false))
  {}

  lemma CollectEraseLinks(s: State, t: nat)
    requires OwnLinks(s, t) && s.threads[t].pc.CollectErase? && s.threads[t].entry < |s.entries|
    ensures var s' := CollectStep(s, t); |s'.threads| == |s.threads| && Relinked(s, t, s'.threads[t], s')
  {}

  lemma CollectEraseThread(s: State, t: nat)
    requires OwnLinks(s, t) && s.threads[t].pc.CollectErase? && s.threads[t].entry < |s.entries|
    ensures var s' := CollectStep(s, t); |s'.threads| == |s.threads| && ThreadOk(s', s'.threads[t])
    ensures var s' := CollectStep(s, t); Hands(s'.threads[t]) == Hands(s.threads[t])
  {
    var l0 := s.threads[t];
    assert multiset([l0.entry] + l0.corpses) == multiset{l0.entry} + multiset(l0.corpses);
  }

  lemma CollectEraseThreadLinked(s: State, t: nat)
    requires OwnLinks(s, t) && s.threads[t].pc.CollectErase? && s.threads[t].entry < |s.entries|
    requires ThreadLinked(CollectStep(s, t).next, s.threads[t])
    ensures var s' := CollectStep(s, t); |s'.threads| == |s.threads| && ThreadLinked(s'.next, s'.threads[t])
  {
    var l0 := s.threads[t];
    LinkedCons(CollectStep(s, t).next, l0.dead, l0.corpses, l0.entry);
  }

  lemma CollectEraseRelinks(s: State, t: nat)
    requires OwnLinks(s, t) && s.threads[t].pc.CollectErase? && Held(s.entries[s.threads[t].entry])
    ensures MayRelink(s, t, CollectStep(s, t))
  {
    ErasedWord(s.entries[s.threads[t].entry]);
    CollectEraseLinks(s, t);
    CollectEraseThread(s, t);
    if ThreadLinked(CollectStep(s, t).next, s.threads[t]) {
      CollectEraseThreadLinked(s, t);
    }
  }

  // --- entries taken from the lists -----------------------------------------

  /** An entry without a count whose load is left has it parked. */
  lemma NothingLeft(s: State, e: nat)
    requires e < |s.entries| && Words(s) && Claims(s) && s.entries[e].count == 0
    ensures s.entries[e].pending == s.entries[e].parked
  {
    assert WordsAt(s.entries[e], e, s.threads);
    forall u | 0 <= u < |s.threads| && s.threads[u].entry == e ensures Own(s.threads[u].pc) == 0 {
      Unowned(s, e, u);
    }
    SumZero(HoldWeight(e), s.threads);
  }

  /** An entry taken from the hands of a collect: in use again, or freed. */
  ghost predicate Taken(s: State, t: nat, e: nat, l: Thread, s': State) {
    && t < |s.threads| && e < |s.entries|
    && s'.next == s.next && s'.head == s.head && s'.chain == s.chain && s'.threads == s.threads[t := l]
    && |s'.entries| == |s.entries| && s'.entries == s.entries[e := s'.entries[e]]
    && Hands(s.threads[t]) == Hands(l) + multiset{e}
    && !(s'.entries[e].queued && !s'.entries[e].freed)
    && s'.entries[e].count == s.entries[e].count && s'.entries[e].mapped == s.entries[e].mapped
  }

  lemma TakenIsQueued(s: State, t: nat, e: nat, l: Thread, s': State)
    requires Taken(s, t, e, l, s') && Places(s)
    ensures s.entries[e].queued && !s.entries[e].freed
  {
    SumAtLeast(PlaceWeight(e), s.threads, t);
    assert Hands(s.threads[t])[e] == Hands(l)[e] + 1;
  }

  lemma TakenPlaces(s: State, t: nat, e: nat, l: Thread, s': State)
    requires Taken(s, t, e, l, s') && Places(s)
    ensures Places(s')
  {
    TakenIsQueued(s, t, e, l, s');
    forall k | 0 <= k < |s.entries| ensures Hands(s.threads[t])[k] == Hands(l)[k] + Bool(k == e) {}
    KeepsPlaces(s, t, l, s');
  }

  lemma TakenThreads(s: State, t: nat, e: nat, l: Thread, s': State)
    requires Taken(s, t, e, l, s') && Threads(s) && ThreadOk(s', l)
    ensures Threads(s')
  {
    forall u | 0 <= u < |s'.threads| ensures ThreadOk(s', s'.threads[u]) {
      assert ThreadOk(s, s.threads[u]);
    }
  }

  ghost predicate MayTake(s: State, t: nat, e: nat, s': State) {
    && t < |s.threads| == |s'.threads|
    && var l0, l := s.threads[t], s'.threads[t];
    && Taken(s, t, e, l, s') && SameWord(s.entries[e], s'.entries[e])
    && Apart(l0.pc) && Apart(l.pc) && !InSection(l.pc) && (Locked(l.pc) ==> Locked(l0.pc))
    && ThreadOk(s', l) && ThreadLinked(s.next, l)
  }

  lemma TakenSteps(s: State, t: nat, e: nat, s': State)
    requires MayTake(s, t, e, s') && Lists(s)
    ensures ListStepped(s, t, s'.threads[t], s') && Lists(s')
  {}

  lemma TakenKeeps(s: State, t: nat, e: nat, s': State)
    requires Inv(s) && MayTake(s, t, e, s')
    ensures Inv(s')
  {
    var l := s'.threads[t];
    TakenPlaces(s, t, e, l, s');
    TakenThreads(s, t, e, l, s');
    TakenSteps(s, t, e, s');
    KeepsSections(s, t, l, s');
    ListStepKeeps(s, t, l, s');
  }

  /** In use again. */
  lemma CollectSpareTakes(s: State, t: nat)
    requires OwnLinks(s, t) && s.threads[t].pc.CollectLook? && Held(s.entries[s.threads[t].entry])
    requires s.entries[s.threads[t].entry].count > 0
    ensures MayTake(s, t, s.threads[t].entry, CollectStep(s, t))
  {}

  lemma CollectGoesHands(s: State, t: nat, open: bool)
    requires OwnLinks(s, t) && s.threads[t].pc.CollectLook? && s.entries[s.threads[t].entry].count == 0
    ensures HandsOn(s, t, CollectStep(s, t), open)
  {
    SetThreadHands(s, t, s.threads[t].(pc := CollectErase), open);
  }

  lemma CorpseFirst(s: State, t: nat)
    requires OwnLinks(s, t) && s.threads[t].corpses != [] && s.threads[t].pc.CollectFree?
    ensures var l := s.threads[t];
      && l.dead == l.corpses[0] < |s.entries|
      && multiset(l.corpses) == multiset{l.corpses[0]} + multiset(l.corpses[1..])
      && Linked(s.next, s.next[l.corpses[0]], l.corpses[1..])
      && (forall e | e in l.corpses[1..] :: e in l.corpses)
  {
    var l := s.threads[t];
    assert l.corpses == [l.corpses[0]] + l.corpses[1..];
  }

  lemma CollectFreeThread(s: State, t: nat)
    requires OwnLinks(s, t) && s.threads[t].pc.CollectFree? && s.threads[t].corpses != []
    ensures var s' := CollectStep(s, t);
      && |s'.threads| == |s.threads|
      && ThreadOk(s', s'.threads[t]) && ThreadLinked(s.next, s'.threads[t])
  {
    CorpseFirst(s, t);
  }

  lemma CollectFreeTakes(s: State, t: nat)
    requires OwnLinks(s, t) && s.threads[t].pc.CollectFree? && s.threads[t].corpses != []
    requires var e := s.threads[t].corpses[0];
             e < |s.entries| && Held(s.entries[e]) && s.entries[e].pending == s.entries[e].parked
    ensures MayTake(s, t, s.threads[t].corpses[0], CollectStep(s, t))
  {
    CorpseFirst(s, t);
    CollectFreeThread(s, t);
  }

  /** The entry a collect frees next. */
  lemma CorpseIsHeld(s: State, t: nat)
    requires Words(s) && Claims(s) && Places(s) && t < |s.threads| && ThreadOk(s, s.threads[t])
    requires s.threads[t].corpses != []
    ensures var e := s.threads[t].corpses[0];
            e < |s.entries| && Held(s.entries[e]) && s.entries[e].pending == s.entries[e].parked
  {
    var e := s.threads[t].corpses[0];
    assert e in s.threads[t].corpses && WordsAt(s.entries[e], e, s.threads);
    NothingLeft(s, e);
    SumAtLeast(PlaceWeight(e), s.threads, t);
    assert multiset(s.threads[t].corpses)[e] > 0;
  }

  lemma CollectDoneHands(s: State, t: nat, open: bool)
    requires OwnLinks(s, t) && s.threads[t].pc.CollectFree? && s.threads[t].corpses == []
    ensures HandsOn(s, t, CollectStep(s, t), open)
  {
    SetThreadHands(s, t, s.threads[t].(pc := Idle), open);
  }
}
