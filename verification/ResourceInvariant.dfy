/** What every step keeps of the entries of a resource cache. */
module ResourceInvariant {
  import opened Counting
  import opened ResourceEntry
  import opened ResourceEffects

  // --- the invariant --------------------------------------------------------

  function OwnWeight(e: nat): Thread -> nat { (l: Thread) => if l.entry == e then Own(l.pc) else 0 }
  function HoldWeight(e: nat): Thread -> nat { (l: Thread) => Bool(l.entry == e && Holds(l.pc)) }
  function ReadWeight(e: nat): Thread -> nat { (l: Thread) => Bool(l.entry == e && Reads(l.pc)) }
  function AheadWeight(e: nat): Thread -> nat { (l: Thread) => Bool(l.entry == e && TaskAhead(l.pc)) }
  function PlaceWeight(e: nat): Thread -> nat { (l: Thread) => Hands(l)[e] }

  /** The queued entries the thread has in hand. */
  function Hands(l: Thread): multiset<nat> {
    multiset(l.mine) + multiset(l.corpses) + if HoldsPlace(l.pc) then multiset{l.entry} else multiset{}
  }

  /** The count is the handles, the tasks, the reads and the threads at work. */
  predicate CountAt(en: Entry, e: nat, threads: seq<Thread>) {
    en.count == en.handles + en.tasks + en.files + Sum(OwnWeight(e), threads)
  }

  /** One of the claim, the word and the threads has the load that is left. */
  predicate LoadAt(en: Entry, e: nat, threads: seq<Thread>) {
    Bool(!en.claimed) + Bool(en.parked) + Sum(HoldWeight(e), threads) == Bool(en.pending)
  }

  /** One read comes before the load, and at most one task of it is ahead. */
  predicate AheadAt(en: Entry, e: nat, threads: seq<Thread>) {
    && en.files + Sum(ReadWeight(e), threads) + Bool(en.left) <= 1
    && en.tasks + Bool(en.parked) + en.files + Sum(AheadWeight(e), threads) <= 1
  }

  predicate WordsAt(en: Entry, e: nat, threads: seq<Thread>) {
    EntryOk(en) && CountAt(en, e, threads) && LoadAt(en, e, threads) && AheadAt(en, e, threads)
  }

  ghost predicate Words(s: State) {
    forall e | 0 <= e < |s.entries| :: WordsAt(s.entries[e], e, s.threads)
  }

  predicate ParkedAt(s: State, l: Thread) {
    l.entry < |s.entries| && s.entries[l.entry].parked && Own(l.pc) > 0 ==> MidStep(l.pc)
  }

  ghost predicate Parks(s: State) { forall t | 0 <= t < |s.threads| :: ParkedAt(s, s.threads[t]) }

  /** A load that may be claimed has a task, or a thread that goes on to a claim. */
  ghost predicate Claims(s: State) {
    forall e | 0 <= e < |s.entries| && !s.entries[e].claimed && s.entries[e].tasks == 0 ::
      exists t :: 0 <= t < |s.threads| && s.threads[t].entry == e && WillClaim(s.threads[t].pc)
  }

  /** Loading, and neither to be claimed nor parked nor read. */
  predicate Underway(en: Entry) { !en.freed && en.state.Loading? && en.claimed && !en.parked && en.files == 0 }

  ghost predicate Loadings(s: State) {
    forall e | 0 <= e < |s.entries| && Underway(s.entries[e]) ::
      exists t :: 0 <= t < |s.threads| && s.threads[t].entry == e && Loads(s.threads[t].pc)
  }

  /** At work on an entry, with a count of it or its place in a list. */
  predicate Uses(pc: Pc) { Own(pc) > 0 || HoldsPlace(pc) || pc.FindAdd? }

  predicate ThreadOk(s: State, l: Thread) {
    && (Uses(l.pc) ==> l.entry < |s.entries|)
    && (l.pc.FindAdd? ==> s.entries[l.entry].mapped)
    && (l.pc.PushSwap? ==> l.entry < |s.next| && s.next[l.entry] == l.seen)
    && (l.pc.CollectErase? ==> s.entries[l.entry].count == 0)
    && (forall e | e in l.corpses :: e < |s.entries| && s.entries[e].count == 0 && !s.entries[e].mapped)
    && (!l.pc.Idle? || (l.mine == [] && l.corpses == []))
    && (l.mine != [] ==> l.pc.CollectLock? || Locked(l.pc))
    && (l.corpses != [] ==> Locked(l.pc) || l.pc.CollectFree?)
  }

  ghost predicate Threads(s: State) { forall t | 0 <= t < |s.threads| :: ThreadOk(s, s.threads[t]) }

  ghost predicate Sections(s: State) {
    forall t, u | 0 <= t < |s.threads| && 0 <= u < |s.threads| && t != u && Locked(s.threads[t].pc) ::
      !Locked(s.threads[u].pc) && !InSection(s.threads[u].pc)
  }

  /** The entries that head leads to. */
  ghost predicate Linked(next: seq<int>, head: int, chain: seq<nat>)
    decreases |chain|
  {
    if chain == [] then head == NONE
    else head == chain[0] && chain[0] < |next| && Linked(next, next[chain[0]], chain[1..])
  }

  ghost predicate ThreadLinked(next: seq<int>, l: Thread) {
    && (l.pc.CollectLock? || Locked(l.pc) ==> Linked(next, l.list, l.mine))
    && (Locked(l.pc) || l.pc.CollectFree? ==> Linked(next, l.dead, l.corpses))
    && (!Locked(l.pc) && !l.pc.CollectFree? ==> l.dead == NONE)
  }

  ghost predicate Lists(s: State) {
    && |s.next| == |s.entries|
    && Linked(s.next, s.head, s.chain)
    && (forall t | 0 <= t < |s.threads| :: ThreadLinked(s.next, s.threads[t]))
  }

  /** A queued entry is on the unused list, in the hands of the thread that
      queues it or of one that collects, once. */
  ghost predicate Places(s: State) {
    forall e | 0 <= e < |s.entries| ::
      multiset(s.chain)[e] + Sum(PlaceWeight(e), s.threads) == Bool(s.entries[e].queued && !s.entries[e].freed)
  }

  ghost predicate Inv(s: State) {
    && Words(s) && Parks(s) && Claims(s) && Loadings(s) && Threads(s) && Sections(s) && Lists(s) && Places(s)
  }

  // --- steps at the word of an entry ----------------------------------------

  ghost predicate Stepped(s: State, t: nat, e: nat, en: Entry, l: Thread, s': State) {
    && t < |s.threads| && e < |s.entries|
    && s'.entries == s.entries[e := en] && s'.threads == s.threads[t := l]
    && (l.entry == e || l.pc.Idle?) && (s.threads[t].entry == e || s.threads[t].pc.Idle?)
  }

  lemma KeepsCountAt(s: State, t: nat, e: nat, en: Entry, l: Thread, s': State, k: nat)
    requires Stepped(s, t, e, en, l, s') && k < |s.entries| && CountAt(s.entries[k], k, s.threads)
    requires CountEffect(s.entries[e], s.threads[t], en, l)
    ensures CountAt(s'.entries[k], k, s'.threads)
  {
    SumUpdate(OwnWeight(k), s.threads, t, l);
  }

  lemma KeepsLoadAt(s: State, t: nat, e: nat, en: Entry, l: Thread, s': State, k: nat)
    requires Stepped(s, t, e, en, l, s') && k < |s.entries| && LoadAt(s.entries[k], k, s.threads)
    requires LoadEffect(s.entries[e], s.threads[t], en, l)
    ensures LoadAt(s'.entries[k], k, s'.threads)
  {
    SumUpdate(HoldWeight(k), s.threads, t, l);
  }

  lemma KeepsAheadAt(s: State, t: nat, e: nat, en: Entry, l: Thread, s': State, k: nat)
    requires Stepped(s, t, e, en, l, s') && k < |s.entries| && AheadAt(s.entries[k], k, s.threads)
    requires AheadEffect(s.entries[e], s.threads[t], en, l)
    ensures AheadAt(s'.entries[k], k, s'.threads)
  {
    SumUpdate(ReadWeight(k), s.threads, t, l);
    SumUpdate(AheadWeight(k), s.threads, t, l);
  }

  lemma KeepsWords(s: State, t: nat, e: nat, en: Entry, l: Thread, s': State)
    requires Stepped(s, t, e, en, l, s') && Words(s) && EntryOk(en)
    requires CountEffect(s.entries[e], s.threads[t], en, l) && LoadEffect(s.entries[e], s.threads[t], en, l)
    requires AheadEffect(s.entries[e], s.threads[t], en, l)
    ensures Words(s')
  {
    forall k | 0 <= k < |s'.entries| ensures WordsAt(s'.entries[k], k, s'.threads) {
      assert WordsAt(s.entries[k], k, s.threads);
      KeepsCountAt(s, t, e, en, l, s', k);
      KeepsLoadAt(s, t, e, en, l, s', k);
      KeepsAheadAt(s, t, e, en, l, s', k);
    }
  }

  /** The last count: no other thread is at work on the entry. */
  lemma OnlyOne(s: State, t: nat, u: nat)
    requires t < |s.threads| && u < |s.threads| && t != u && s.threads[t].entry == s.threads[u].entry < |s.entries|
    requires WordsAt(s.entries[s.threads[t].entry], s.threads[t].entry, s.threads)
    requires s.entries[s.threads[t].entry].count == 1 == Own(s.threads[t].pc)
    ensures Own(s.threads[u].pc) == 0
  {
    SumAtLeastTwo(OwnWeight(s.threads[t].entry), s.threads, if t < u then t else u, if t < u then u else t);
  }

  lemma KeepsParks(s: State, t: nat, e: nat, en: Entry, l: Thread, s': State)
    requires Stepped(s, t, e, en, l, s') && Words(s) && Parks(s)
    requires ParkEffect(s.entries[e], s.threads[t], en, l)
    ensures Parks(s')
  {
    forall u | 0 <= u < |s'.threads| ensures ParkedAt(s', s'.threads[u]) {
      assert ParkedAt(s, s.threads[u]);
      if u != t && s.threads[u].entry == e && en.parked && !s.entries[e].parked {
        OnlyOne(s, t, u);
      }
    }
  }

  lemma KeepsClaims(s: State, t: nat, e: nat, en: Entry, l: Thread, s': State)
    requires Stepped(s, t, e, en, l, s') && Claims(s)
    requires ClaimEffect(s.entries[e], s.threads[t], en, l)
    ensures Claims(s')
  {
    forall k | 0 <= k < |s'.entries| && !s'.entries[k].claimed && s'.entries[k].tasks == 0
      ensures exists u :: 0 <= u < |s'.threads| && s'.threads[u].entry == k && WillClaim(s'.threads[u].pc)
    {
      if l.entry == k && WillClaim(l.pc) {
        assert s'.threads[t].entry == k;
      } else {
        var u :| 0 <= u < |s.threads| && s.threads[u].entry == k && WillClaim(s.threads[u].pc);
        assert s'.threads[u] == s.threads[u];
      }
    }
  }

  lemma KeepsLoadings(s: State, t: nat, e: nat, en: Entry, l: Thread, s': State)
    requires Stepped(s, t, e, en, l, s') && Loadings(s) && en.freed == s.entries[e].freed
    requires StateEffect(s.entries[e], s.threads[t], en, l)
    ensures Loadings(s')
  {
    forall k | 0 <= k < |s'.entries| && Underway(s'.entries[k])
      ensures exists u :: 0 <= u < |s'.threads| && s'.threads[u].entry == k && Loads(s'.threads[u].pc)
    {
      if l.entry == k && Loads(l.pc) {
        assert s'.threads[t].entry == k;
      } else {
        var u :| 0 <= u < |s.threads| && s.threads[u].entry == k && Loads(s.threads[u].pc);
        assert s'.threads[u] == s.threads[u];
      }
    }
  }

  lemma WordIsOk(s: State, t: nat, e: nat)
    requires t < |s.threads| && e < |s.entries| && WordsAt(s.entries[e], e, s.threads)
    requires s.threads[t].entry == e || s.threads[t].pc.Idle?
    requires ParkedAt(s, s.threads[t]) && ThreadOk(s, s.threads[t])
    ensures WordOk(s.entries[e], s.threads[t])
  {
    SumAtLeast(OwnWeight(e), s.threads, t);
    SumAtLeast(HoldWeight(e), s.threads, t);
    SumAtLeast(ReadWeight(e), s.threads, t);
    SumAtLeast(AheadWeight(e), s.threads, t);
  }

  /** An entry without a count is in nobody's hands. */
  lemma Unowned(s: State, e: nat, u: nat)
    requires e < |s.entries| && WordsAt(s.entries[e], e, s.threads) && s.entries[e].count == 0
    requires u < |s.threads| && s.threads[u].entry == e
    ensures Own(s.threads[u].pc) == 0
  {
    SumAtLeast(OwnWeight(e), s.threads, u);
  }

  /** A step at an entry whose count is 0 changes nothing, except where the
      thread found it in a map. */
  lemma KeepsThreads(s: State, t: nat, e: nat, en: Entry, l: Thread, s': State, open: bool)
    requires Stepped(s, t, e, en, l, s') && Threads(s) && Words(s) && Sections(s) && s'.next == s.next
    requires PlaceEffect(s.entries[e], s.threads[t], en, l) && ThreadEffect(s.entries[e], s.threads[t], l, open)
    requires CountEffect(s.entries[e], s.threads[t], en, l)
    requires !InList(s.threads[t].pc) && (l.pc.Idle? || InList(l.pc) || l.entry < |s.entries|)
    ensures Threads(s')
  {
    forall u | 0 <= u < |s'.threads| ensures ThreadOk(s', s'.threads[u]) {
      assert ThreadOk(s, s.threads[u]) && ThreadOk(s, s.threads[t]);
    }
  }

  lemma KeepsSections(s: State, t: nat, l: Thread, s': State)
    requires t < |s.threads| && s'.threads == s.threads[t := l] && Sections(s)
    requires Locked(l.pc) ==> Locked(s.threads[t].pc)
    requires InSection(l.pc) ==> InSection(s.threads[t].pc) || (forall u | 0 <= u < |s.threads| :: !Locked(s.threads[u].pc))
    ensures Sections(s')
  {}

  /** Where a thread came to hold an entry, the word or a list gave it up. */
  lemma KeepsPlaces(s: State, t: nat, l: Thread, s': State)
    requires t < |s.threads| && s'.threads == s.threads[t := l] && |s'.entries| == |s.entries| && Places(s)
    requires forall e | 0 <= e < |s.entries| ::
               multiset(s'.chain)[e] + PlaceWeight(e)(l) + Bool(s.entries[e].queued && !s.entries[e].freed) ==
               multiset(s.chain)[e] + PlaceWeight(e)(s.threads[t]) + Bool(s'.entries[e].queued && !s'.entries[e].freed)
    ensures Places(s')
  {
    forall e | 0 <= e < |s'.entries|
      ensures multiset(s'.chain)[e] + Sum(PlaceWeight(e), s'.threads) == Bool(s'.entries[e].queued && !s'.entries[e].freed)
    {
      SumUpdate(PlaceWeight(e), s.threads, t, l);
    }
  }

  lemma KeepsWordPlaces(s: State, t: nat, e: nat, en: Entry, l: Thread, s': State, open: bool)
    requires Stepped(s, t, e, en, l, s') && Places(s) && s'.chain == s.chain
    requires PlaceEffect(s.entries[e], s.threads[t], en, l) && ThreadEffect(s.entries[e], s.threads[t], l, open)
    requires !InList(s.threads[t].pc) && EntryOk(s.entries[e]) && EntryOk(en)
    ensures Places(s')
  {
    KeepsPlaces(s, t, l, s');
  }

  lemma EffectsKeep(s: State, t: nat, e: nat, en: Entry, l: Thread, s': State, open: bool)
    requires Inv(s) && Stepped(s, t, e, en, l, s') && s'.next == s.next && s'.head == s.head && s'.chain == s.chain
    requires AllEffects(s.entries[e], s.threads[t], en, l, open) && !InList(s.threads[t].pc)
    requires l.pc.Idle? || InList(l.pc) || l.entry == e
    requires open ==> forall u | 0 <= u < |s.threads| :: !Locked(s.threads[u].pc)
    ensures Inv(s')
  {
    assert WordsAt(s.entries[e], e, s.threads);
    KeepsWords(s, t, e, en, l, s');
    KeepsParks(s, t, e, en, l, s');
    KeepsClaims(s, t, e, en, l, s');
    KeepsLoadings(s, t, e, en, l, s');
    KeepsThreads(s, t, e, en, l, s', open);
    KeepsSections(s, t, l, s');
    KeepsWordPlaces(s, t, e, en, l, s', open);
  }

  ghost predicate Open(s: State) { forall u | 0 <= u < |s.threads| :: !Locked(s.threads[u].pc) }

  lemma BeginStepAt(en: Entry, l: Thread, c: Choice, open: bool)
    requires l.pc.Idle? && !c.Collect? && !Makes(c)
    ensures var l' := BeginStep(en, l, c, open).1; l'.pc.Idle? || l'.entry == At(l, c)
  {}

  lemma FindAndWaitStepAt(en: Entry, l: Thread, c: Choice)
    ensures FindStep(en, l).1.entry == l.entry && WaitStep(en, l, c).1.entry == l.entry
  {}

  lemma OtherStepAt(en: Entry, l: Thread, c: Choice)
    ensures TaskStep(en, l, c).1.entry == l.entry && ForceStep(en, l, c).1.entry == l.entry
    ensures ReadStep(en, l, c).1.entry == l.entry
  {}

  lemma WordStepAt(en: Entry, l: Thread, c: Choice, open: bool)
    requires !InList(l.pc) && !(l.pc.Idle? && (c.Collect? || Makes(c)))
    ensures var l' := WordStep(en, l, c, open).1; l'.pc.Idle? || l'.entry == At(l, c)
  {
    if l.pc.Idle? {
      BeginStepAt(en, l, c, open);
    } else {
      FindAndWaitStepAt(en, l, c);
      OtherStepAt(en, l, c);
    }
  }

  lemma WordStepKeeps(s: State, t: nat, c: Choice)
    requires Inv(s) && t < |s.threads| && !InList(s.threads[t].pc)
    requires !(s.threads[t].pc.Idle? && (c.Collect? || Makes(c)))
    ensures Inv(Step(s, t, c))
  {
    var l := s.threads[t];
    var e := At(l, c);
    if e < |s.entries| {
      var open := Open(s);
      var (en, l') := WordStep(s.entries[e], l, c, open);
      assert ThreadOk(s, l) && ParkedAt(s, l) && WordsAt(s.entries[e], e, s.threads);
      WordIsOk(s, t, e);
      WordStepAt(s.entries[e], l, c, open);
      Effects(s.entries[e], l, c, open);
      EffectsKeep(s, t, e, en, l', Step(s, t, c), open);
    }
  }
}
