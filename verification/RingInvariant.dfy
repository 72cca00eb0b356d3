/** What every step keeps of the ring queue. */
module RingInvariant {
  import opened Options
  import opened RingQueue

  // --- the invariant --------------------------------------------------------

  predicate BeforeClaim(phase: Phase) { phase.Taken? || phase.Built? || phase.Ready? }

  function SlotFor(phase: Phase, item: nat): Slot {
    match phase
    case Taken => Slot(false, None)
    case Built => Slot(false, Some(item))
    case Ready => Slot(true, Some(item))
    case Claimed => Slot(true, Some(item))
    case Moved => Slot(true, None)
    case Cleared => Slot(false, None)
    case Released => Slot(false, None)
  }

  ghost function LapNow(s: State, q: nat): nat
    requires Shape(s)
  {
    s.laps[s.config.granuleOf(q)]
  }

  /** The granule of the position serves its lap. */
  ghost predicate Current(s: State, q: nat) requires Shape(s) { s.config.lapOf(q) == LapNow(s, q) }

  ghost function SlotAt(s: State, q: nat): Slot
    requires Shape(s)
  {
    s.slots[s.config.slotOf(q)]
  }

  predicate Owner(pc: Pc) {
    pc.WaitLap? || pc.Build? || pc.Publish? || pc.Move? || pc.ClearState? || pc.CountPop?
  }

  predicate Closer(pc: Pc) { pc.ResetPops? || pc.Discard? || pc.NextLap? }

  function GranuleSlots(c: Config, granule: nat): set<nat>
  {
    set k | 0 <= k < c.slots && c.granuleOfSlot(k) == granule
  }

  ghost predicate Heads(s: State) requires Shape(s) {
    && s.head <= s.tail
    && (forall q: nat | q < s.tail :: q < s.head <==> !BeforeClaim(s.phases[q]))
  }

  ghost predicate ThreadOk(s: State, l: Thread)
    requires Shape(s)
  {
    var granule := s.config.granuleOf(l.pos);
    && (Owner(l.pc) || Closer(l.pc) ==> l.pos < s.tail)
    && (l.pc.WaitLap? || l.pc.Build? ==> s.phases[l.pos].Taken? && s.items[l.pos] == l.item)
    && (l.pc.Build? ==> Current(s, l.pos))
    && (l.pc.Publish? ==> s.phases[l.pos].Built?)
    && (l.pc.LookState? && l.pos >= s.head ==> Current(s, l.pos))
    && (l.pc.SwapHead? && l.pos >= s.head ==> l.pos < s.tail && s.phases[l.pos].Ready?)
    && (l.pc.Move? ==> s.phases[l.pos].Claimed?)
    && (l.pc.ClearState? ==> s.phases[l.pos].Moved?)
    && (l.pc.CountPop? ==> s.phases[l.pos].Cleared?)
    && (l.pc.CountPop? || l.pc.ResetPops? || l.pc.Discard? ==> s.config.reclaim)
    && (Closer(l.pc) ==> Current(s, l.pos) && s.counted[granule] == GranuleSlots(s.config, granule))
    && ((l.pc.Discard? || l.pc.NextLap?) && s.config.reclaim ==> s.pops[granule] == 0)
  }

  ghost predicate ThreadsOk(s: State) requires Shape(s) {
    forall t | 0 <= t < |s.threads| :: ThreadOk(s, s.threads[t])
  }

  /** One producer and one consumer for a position, one closer for a granule. */
  ghost predicate Once(s: State) requires Shape(s) {
    && (forall t, u | 0 <= t < |s.threads| && 0 <= u < |s.threads| && t != u &&
                      Owner(s.threads[t].pc) && Owner(s.threads[u].pc) ::
          s.threads[t].pos != s.threads[u].pos)
    && (forall t, u | 0 <= t < |s.threads| && 0 <= u < |s.threads| && t != u &&
                      Closer(s.threads[t].pc) && Closer(s.threads[u].pc) ::
          s.config.granuleOf(s.threads[t].pos) != s.config.granuleOf(s.threads[u].pos))
  }

  /** Laps that are over were popped to the end, laps to come not begun. */
  ghost predicate Laps(s: State) requires Shape(s) {
    && (forall q: nat | s.config.lapOf(q) < LapNow(s, q) :: q < s.tail && s.phases[q].Released?)
    && (forall q: nat | q < s.tail && s.config.lapOf(q) > LapNow(s, q) :: s.phases[q].Taken?)
  }

  /** A slot holds what the position of the current lap put there. */
  ghost predicate Slots(s: State) requires Shape(s) {
    forall q: nat | Current(s, q) ::
      SlotAt(s, q) == if q < s.tail then SlotFor(s.phases[q], s.items[q]) else Slot(false, None)
  }

  ghost predicate Counted(s: State) requires Shape(s) {
    && (forall granule | 0 <= granule < s.config.granules ::
          s.counted[granule] <= GranuleSlots(s.config, granule))
    && (forall q: nat | Current(s, q) ::
          (s.config.slotOf(q) in CountedAt(s, q)) <==> (q < s.tail && s.phases[q].Released?))
  }

  ghost function CountedAt(s: State, q: nat): set<nat>
    requires Shape(s)
  {
    s.counted[s.config.granuleOf(q)]
  }

  predicate Closes(c: Config, l: Thread, granule: nat) {
    Closer(l.pc) && c.granuleOf(l.pos) == granule
  }

  /** Not all slots of a granule are popped, or a thread moves it on. */
  ghost predicate Open(s: State) requires Shape(s) {
    forall granule | 0 <= granule < s.config.granules ::
      || (&& s.counted[granule] != GranuleSlots(s.config, granule)
          && (s.config.reclaim ==> s.pops[granule] == |s.counted[granule]|))
      || (exists t :: 0 <= t < |s.threads| && Closes(s.config, s.threads[t], granule))
  }

  /** What was moved out is what the producer of the position brought. */
  ghost predicate Got(s: State) requires Shape(s) {
    && (forall q: nat :: q in s.got <==> q < s.tail && (s.phases[q].Moved? || s.phases[q].Cleared? || s.phases[q].Released?))
    && (forall q: nat | q in s.got :: q < s.tail && s.got[q] == s.items[q])
  }

  predicate Owns(l: Thread, pos: nat) { Owner(l.pc) && l.pos == pos }

  /** A position that is neither Ready nor Released is some thread's. */
  ghost predicate Owned(s: State) requires Shape(s) {
    forall q: nat | q < s.tail && !s.phases[q].Ready? && !s.phases[q].Released? ::
      exists t :: 0 <= t < |s.threads| && Owns(s.threads[t], q)
  }

  ghost predicate Inv(s: State) {
    && Shape(s) && Owned(s) && Heads(s) && ThreadsOk(s) && Once(s) && Laps(s) && Slots(s) && Counted(s) && Open(s) && Got(s)
  }

  // --- the geometry ---------------------------------------------------------

  /** A slot has one position in every lap. */
  ghost predicate Injective(c: Config) {
    forall p: nat, q: nat :: c.slotOf(p) == c.slotOf(q) && c.lapOf(p) == c.lapOf(q) ==> p == q
  }

  /** Every slot has one in every lap. */
  ghost predicate Surjective(c: Config) {
    forall lap: nat, slot: nat | slot < c.slots ::
      c.slotOf(c.placeAt(lap, slot)) == slot && c.lapOf(c.placeAt(lap, slot)) == lap
  }

  /** The laps follow one another. */
  ghost predicate Monotone(c: Config) {
    forall p: nat, q: nat :: c.lapOf(p) < c.lapOf(q) ==> p < q
  }

  ghost predicate Regular(c: Config) {
    Injective(c) && Surjective(c) && Monotone(c) && Grained(c)
  }

  ghost predicate Grained(c: Config) {
    && c.granuleSlots > 0
    && (!c.reclaim ==> c.granuleSlots == 1)
    && (forall granule | 0 <= granule < c.granules :: |GranuleSlots(c, granule)| == c.granuleSlots)
  }

  // --- steps that change nothing but their thread ---------------------------

  lemma ThreadStepKeeps(s: State, t: nat, l: Thread)
    requires Inv(s) && t < |s.threads| && ThreadOk(s, l)
    requires Closer(l.pc) == Closer(s.threads[t].pc) && (Closer(l.pc) ==> l.pos == s.threads[t].pos)
    requires Owner(l.pc) == Owner(s.threads[t].pc) && (Owner(l.pc) ==> l.pos == s.threads[t].pos)
    ensures Inv(SetThread(s, t, l))
  {
    var s' := SetThread(s, t, l);
    OpenStays(s, t, l, s');
    OwnedStays(s, t, l, s');
    ThreadStepThreads(s, t, l);
    forall q: nat | Current(s', q)
      ensures SlotAt(s', q) == if q < s'.tail then SlotFor(s'.phases[q], s'.items[q]) else Slot(false, None)
      ensures (s.config.slotOf(q) in CountedAt(s', q)) <==> (q < s'.tail && s'.phases[q].Released?)
    {
      assert Current(s, q);
    }
  }

  lemma ThreadStepThreads(s: State, t: nat, l: Thread)
    requires Shape(s) && ThreadsOk(s) && Once(s) && t < |s.threads| && ThreadOk(s, l)
    requires Closer(l.pc) == Closer(s.threads[t].pc) && (Closer(l.pc) ==> l.pos == s.threads[t].pos)
    requires Owner(l.pc) == Owner(s.threads[t].pc) && (Owner(l.pc) ==> l.pos == s.threads[t].pos)
    ensures ThreadsOk(SetThread(s, t, l)) && Once(SetThread(s, t, l))
  {
    var s' := SetThread(s, t, l);
    forall u | 0 <= u < |s'.threads| ensures ThreadOk(s', s'.threads[u]) {
      assert ThreadOk(s, if u == t then l else s.threads[u]);
    }
  }

  lemma OwnedStays(s: State, t: nat, l: Thread, s': State)
    requires Shape(s) && Shape(s') && Owned(s) && t < |s.threads| && s'.threads == s.threads[t := l]
    requires s.tail <= s'.tail
    requires forall q: nat | q < s'.tail && !s'.phases[q].Ready? && !s'.phases[q].Released? ::
               || Owns(l, q)
               || (q < s.tail && !s.phases[q].Ready? && !s.phases[q].Released? && !Owns(s.threads[t], q))
    ensures Owned(s')
  {
    forall q: nat | q < s'.tail && !s'.phases[q].Ready? && !s'.phases[q].Released?
      ensures exists u :: 0 <= u < |s'.threads| && Owns(s'.threads[u], q)
    {
      if Owns(l, q) {
        assert Owns(s'.threads[t], q);
      } else {
        var u :| 0 <= u < |s.threads| && Owns(s.threads[u], q);
        assert Owns(s'.threads[u], q);
      }
    }
  }

  /** Whoever closes a granule still does if its thread does. */
  lemma OpenStays(s: State, t: nat, l: Thread, s': State)
    requires Shape(s) && Shape(s') && Open(s) && t < |s.threads| && s'.threads == s.threads[t := l]
    requires s'.config == s.config
    requires forall granule | 0 <= granule < s.config.granules ::
               || (s'.counted[granule] == s.counted[granule] && s'.pops[granule] == s.pops[granule] &&
                   (Closes(s.config, s.threads[t], granule) ==> Closes(s.config, l, granule)))
               || Closes(s.config, l, granule)
               || (s'.counted[granule] != GranuleSlots(s.config, granule) &&
                   (s.config.reclaim ==> s'.pops[granule] == |s'.counted[granule]|))
    ensures Open(s')
  {
    forall granule | 0 <= granule < s'.config.granules &&
                     !(s'.counted[granule] != GranuleSlots(s.config, granule) &&
                       (s.config.reclaim ==> s'.pops[granule] == |s'.counted[granule]|))
      ensures exists u :: 0 <= u < |s'.threads| && Closes(s'.config, s'.threads[u], granule)
    {
      if Closes(s.config, l, granule) {
        assert Closes(s'.config, s'.threads[t], granule);
      } else {
        var u :| 0 <= u < |s.threads| && Closes(s.config, s.threads[u], granule);
        assert Closes(s'.config, s'.threads[u], granule);
      }
    }
  }

  // --- steps that take a position from one phase to the next ----------------

  /** The position in the next phase, with what its slot holds then. */
  ghost function Advance(s: State, t: nat, pos: nat, phase: Phase, l: Thread): State
    requires Shape(s) && t < |s.threads| && pos < s.tail
  {
    s.(phases := s.phases[pos := phase],
       slots := s.slots[s.config.slotOf(pos) := SlotFor(phase, s.items[pos])],
       head := if phase.Claimed? then s.head + 1 else s.head,
       got := if phase.Moved? then s.got[pos := s.items[pos]] else s.got,
       threads := s.threads[t := l])
  }

  predicate Follows(before: Phase, after: Phase) {
    || (before.Taken? && after.Built?)
    || (before.Built? && after.Ready?)
    || (before.Ready? && after.Claimed?)
    || (before.Claimed? && after.Moved?)
    || (before.Moved? && after.Cleared?)
  }

  ghost predicate MayAdvance(s: State, t: nat, pos: nat, phase: Phase, l: Thread) {
    && Shape(s) && t < |s.threads| && pos < s.tail && Current(s, pos)
    && Follows(s.phases[pos], phase)
    && (phase.Claimed? ==> pos == s.head)
    && s.threads[t].pos == pos && l.pos == pos
    && (Owner(s.threads[t].pc) || (s.phases[pos].Ready? && !Closer(s.threads[t].pc)))
    && (match l.pc
        case Publish => phase.Built?
        case Idle => phase.Ready?
        case Move => phase.Claimed?
        case ClearState => phase.Moved?
        case CountPop => phase.Cleared? && s.config.reclaim
        case _ => false)
  }

  lemma AdvanceSlots(s: State, t: nat, pos: nat, phase: Phase, l: Thread)
    requires MayAdvance(s, t, pos, phase, l) && Injective(s.config) && Slots(s)
    ensures Slots(Advance(s, t, pos, phase, l))
  {
    var s' := Advance(s, t, pos, phase, l);
    forall q: nat | Current(s', q)
      ensures SlotAt(s', q) == if q < s'.tail then SlotFor(s'.phases[q], s'.items[q]) else Slot(false, None)
    {
      assert Current(s, q);
      if q != pos {
        assert s.config.slotOf(q) != s.config.slotOf(pos);
      }
    }
  }

  lemma AdvancePhases(s: State, t: nat, pos: nat, phase: Phase, l: Thread)
    requires MayAdvance(s, t, pos, phase, l) && Heads(s) && Laps(s) && Got(s)
    ensures var s' := Advance(s, t, pos, phase, l); Shape(s') && Heads(s') && Laps(s') && Got(s')
  {}

  lemma AdvanceThreads(s: State, t: nat, pos: nat, phase: Phase, l: Thread)
    requires MayAdvance(s, t, pos, phase, l) && Heads(s) && ThreadsOk(s) && Once(s)
    ensures ThreadsOk(Advance(s, t, pos, phase, l))
  {}

  lemma AdvanceOnce(s: State, t: nat, pos: nat, phase: Phase, l: Thread)
    requires MayAdvance(s, t, pos, phase, l) && ThreadsOk(s) && Once(s)
    ensures Once(Advance(s, t, pos, phase, l))
  {}

  lemma AdvanceCounted(s: State, t: nat, pos: nat, phase: Phase, l: Thread)
    requires MayAdvance(s, t, pos, phase, l) && Counted(s) && Open(s)
    ensures Counted(Advance(s, t, pos, phase, l)) && Open(Advance(s, t, pos, phase, l))
  {
    OpenStays(s, t, l, Advance(s, t, pos, phase, l));
  }

  lemma AdvanceKeeps(s: State, t: nat, pos: nat, phase: Phase, l: Thread)
    requires Inv(s) && MayAdvance(s, t, pos, phase, l) && Injective(s.config)
    ensures Inv(Advance(s, t, pos, phase, l))
  {
    AdvanceSlots(s, t, pos, phase, l);
    AdvancePhases(s, t, pos, phase, l);
    AdvanceThreads(s, t, pos, phase, l);
    AdvanceOnce(s, t, pos, phase, l);
    AdvanceCounted(s, t, pos, phase, l);
    OwnedStays(s, t, l, Advance(s, t, pos, phase, l));
  }

  // --- the count of pops, and the next lap ----------------------------------

  /** The last part of a pop: the position is counted as popped. */
  ghost function Count(s: State, t: nat, l: Thread): State
    requires Shape(s) && t < |s.threads| && s.threads[t].pos < s.tail
  {
    var pos, granule := s.threads[t].pos, s.config.granuleOf(s.threads[t].pos);
    s.(phases := s.phases[pos := Released],
       slots := s.slots[s.config.slotOf(pos) := Slot(false, None)],
       pops := if s.config.reclaim then s.pops[granule := s.pops[granule] + 1] else s.pops,
       counted := s.counted[granule := s.counted[granule] + {s.config.slotOf(pos)}],
       threads := s.threads[t := l])
  }

  ghost predicate MayCount(s: State, t: nat, l: Thread) {
    && Shape(s) && t < |s.threads|
    && var l0 := s.threads[t];
       var granule := s.config.granuleOf(l0.pos);
    && (l0.pc.CountPop? || (l0.pc.ClearState? && !s.config.reclaim))
    && l0.pos < s.tail && Current(s, l0.pos) && l.pos == l0.pos
    && s.config.slotOf(l0.pos) !in s.counted[granule]
    && (if s.counted[granule] + {s.config.slotOf(l0.pos)} != GranuleSlots(s.config, granule) then l.pc.Idle? && s.config.reclaim
        else l.pc == if s.config.reclaim then ResetPops else NextLap)
  }

  lemma CountSlots(s: State, t: nat, l: Thread)
    requires MayCount(s, t, l) && Injective(s.config) && Slots(s)
    ensures Slots(Count(s, t, l))
  {
    var s' := Count(s, t, l);
    var pos := s.threads[t].pos;
    forall q: nat | Current(s', q)
      ensures SlotAt(s', q) == if q < s'.tail then SlotFor(s'.phases[q], s'.items[q]) else Slot(false, None)
    {
      assert Current(s, q);
      if q != pos {
        assert s.config.slotOf(q) != s.config.slotOf(pos);
      }
    }
  }

  lemma CountPhases(s: State, t: nat, l: Thread)
    requires MayCount(s, t, l) && Heads(s) && Laps(s) && Got(s) && ThreadsOk(s)
    ensures var s' := Count(s, t, l); Shape(s') && Heads(s') && Laps(s') && Got(s')
  {
    assert ThreadOk(s, s.threads[t]);
  }

  lemma CountCounted(s: State, t: nat, l: Thread)
    requires MayCount(s, t, l) && Counted(s) && Injective(s.config)
    ensures Counted(Count(s, t, l))
  {
    var s' := Count(s, t, l);
    var pos := s.threads[t].pos;
    forall q: nat | Current(s', q)
      ensures (s.config.slotOf(q) in CountedAt(s', q)) <==> (q < s'.tail && s'.phases[q].Released?)
    {
      assert Current(s, q);
      if q != pos {
        assert s.config.slotOf(q) != s.config.slotOf(pos);
      }
    }
  }

  /** A slot that is not counted yet: nobody closes its granule. */
  lemma NobodyCloses(s: State, pos: nat)
    requires Shape(s) && ThreadsOk(s)
    requires s.config.slotOf(pos) !in s.counted[s.config.granuleOf(pos)]
    ensures forall u | 0 <= u < |s.threads| :: !Closes(s.config, s.threads[u], s.config.granuleOf(pos))
  {
    assert forall u | 0 <= u < |s.threads| :: ThreadOk(s, s.threads[u]);
  }

  lemma CountThreads(s: State, t: nat, l: Thread)
    requires MayCount(s, t, l) && ThreadsOk(s) && Once(s) && Open(s)
    ensures ThreadsOk(Count(s, t, l))
  {
    var s' := Count(s, t, l);
    var pos := s.threads[t].pos;
    NobodyCloses(s, pos);
    forall u | 0 <= u < |s'.threads| ensures ThreadOk(s', s'.threads[u]) {
      assert ThreadOk(s, s.threads[u]) && ThreadOk(s, s.threads[t]);
    }
  }

  lemma CountOnce(s: State, t: nat, l: Thread)
    requires MayCount(s, t, l) && ThreadsOk(s) && Once(s)
    ensures Once(Count(s, t, l))
  {
    NobodyCloses(s, s.threads[t].pos);
  }

  lemma CountOpen(s: State, t: nat, l: Thread)
    requires MayCount(s, t, l) && ThreadsOk(s) && Open(s)
    ensures Open(Count(s, t, l))
  {
    var s' := Count(s, t, l);
    NobodyCloses(s, s.threads[t].pos);
    OpenStays(s, t, l, s');
  }

  lemma CountKeeps(s: State, t: nat, l: Thread)
    requires Inv(s) && MayCount(s, t, l) && Injective(s.config)
    ensures Inv(Count(s, t, l))
  {
    CountSlots(s, t, l);
    CountPhases(s, t, l);
    CountCounted(s, t, l);
    CountThreads(s, t, l);
    CountOnce(s, t, l);
    CountOpen(s, t, l);
    OwnedStays(s, t, l, Count(s, t, l));
  }

  // --- the other steps ------------------------------------------------------

  lemma TakeTailPhases(s: State, t: nat, c: Choice)
    requires Inv(s) && t < |s.threads| && s.threads[t].pc.TakeTail?
    ensures var s' := Step(s, t, c);
            Shape(s') && Heads(s') && Laps(s') && Slots(s') && Counted(s') && Got(s')
  {
    var s' := Step(s, t, c);
    forall q: nat | Current(s', q)
      ensures SlotAt(s', q) == if q < s'.tail then SlotFor(s'.phases[q], s'.items[q]) else Slot(false, None)
      ensures (s.config.slotOf(q) in CountedAt(s', q)) <==> (q < s'.tail && s'.phases[q].Released?)
    {
      assert Current(s, q);
    }
  }

  lemma TakeTailKeeps(s: State, t: nat, c: Choice)
    requires Inv(s) && t < |s.threads| && s.threads[t].pc.TakeTail?
    ensures Inv(Step(s, t, c))
  {
    var s' := Step(s, t, c);
    TakeTailPhases(s, t, c);
    OpenStays(s, t, s'.threads[t], s');
    OwnedStays(s, t, s'.threads[t], s');
    TakeTailThreads(s, t, c);
  }

  lemma TakeTailThreads(s: State, t: nat, c: Choice)
    requires Shape(s) && ThreadsOk(s) && Once(s) && t < |s.threads| && s.threads[t].pc.TakeTail?
    ensures var s' := Step(s, t, c); Shape(s') && ThreadsOk(s') && Once(s')
  {
    var s' := Step(s, t, c);
    forall u | 0 <= u < |s'.threads| ensures ThreadOk(s', s'.threads[u]) {
      assert ThreadOk(s, s.threads[u]);
    }
  }

  /** Only pops and a thread that owns nothing changed: nothing else reads them. */
  lemma PopsAreApart(s: State, t: nat, s': State, pops: seq<nat>, l: Thread)
    requires Shape(s) && Heads(s) && Laps(s) && Slots(s) && Counted(s) && Got(s) && t < |s.threads|
    requires |pops| == |s.pops| && s' == SetThread(s.(pops := pops), t, l) && Shape(s')
    ensures Heads(s') && Laps(s') && Slots(s') && Counted(s') && Got(s')
  {
    forall q: nat | Current(s', q)
      ensures SlotAt(s', q) == if q < s'.tail then SlotFor(s'.phases[q], s'.items[q]) else Slot(false, None)
      ensures (s'.config.slotOf(q) in CountedAt(s', q)) <==> (q < s'.tail && s'.phases[q].Released?)
    {
      assert Current(s, q);
    }
  }

  lemma ResetPopsThreads(s: State, t: nat, c: Choice)
    requires Shape(s) && ThreadsOk(s) && Once(s) && t < |s.threads| && s.threads[t].pc.ResetPops?
    ensures var s' := Step(s, t, c); Shape(s') && ThreadsOk(s') && Once(s')
  {
    var s' := Step(s, t, c);
    assert ThreadOk(s, s.threads[t]);
    forall u | 0 <= u < |s'.threads| ensures ThreadOk(s', s'.threads[u]) {
      assert ThreadOk(s, s.threads[u]);
    }
  }

  lemma ResetPopsKeeps(s: State, t: nat, c: Choice)
    requires Inv(s) && t < |s.threads| && s.threads[t].pc.ResetPops?
    ensures Inv(Step(s, t, c))
  {
    var s' := Step(s, t, c);
    assert ThreadOk(s, s.threads[t]);
    ResetPopsThreads(s, t, c);
    OpenStays(s, t, s'.threads[t], s');
    OwnedStays(s, t, s'.threads[t], s');
    PopsAreApart(s, t, s', s'.pops, s'.threads[t]);
  }

  /** Every slot of a granule that is popped to the end is empty. */
  lemma ClosedIsEmpty(s: State, pos: nat, slot: nat)
    requires Shape(s) && Slots(s) && Counted(s) && Surjective(s.config)
    requires s.counted[s.config.granuleOf(pos)] == GranuleSlots(s.config, s.config.granuleOf(pos))
    requires slot in GranuleSlots(s.config, s.config.granuleOf(pos))
    ensures s.slots[slot] == Slot(false, None)
  {
    var q := s.config.placeAt(s.laps[s.config.granuleOf(pos)], slot);
    assert Current(s, q) && SlotAt(s, q) == s.slots[slot];
  }

  lemma DiscardKeeps(s: State, t: nat, c: Choice)
    requires Inv(s) && t < |s.threads| && s.threads[t].pc.Discard? && Surjective(s.config)
    ensures Inv(Step(s, t, c))
    ensures Step(s, t, c).slots == s.slots
  {
    var l := s.threads[t];
    var s' := Step(s, t, c);
    assert ThreadOk(s, l);
    forall k | 0 <= k < |s.slots| ensures s'.slots[k] == s.slots[k] {
      if s.config.granuleOfSlot(k) == s.config.granuleOf(l.pos) {
        ClosedIsEmpty(s, l.pos, k);
      }
    }
    assert s'.slots == s.slots;
    assert s' == SetThread(s, t, l.(pc := NextLap));
    ThreadStepKeeps(s, t, l.(pc := NextLap));
  }

  ghost predicate MayMoveOn(s: State, t: nat) {
    && Shape(s) && t < |s.threads| && s.threads[t].pc.NextLap? && s.threads[t].pos < s.tail
    && Current(s, s.threads[t].pos)
    && s.counted[s.config.granuleOf(s.threads[t].pos)] == GranuleSlots(s.config, s.config.granuleOf(s.threads[t].pos))
  }

  lemma NextLapPhases(s: State, t: nat, c: Choice)
    requires MayMoveOn(s, t) && Heads(s) && Laps(s) && Counted(s) && Got(s)
    ensures var s' := Step(s, t, c); Shape(s') && Heads(s') && Laps(s') && Counted(s') && Got(s')
  {
    var s' := Step(s, t, c);
    var granule := s.config.granuleOf(s.threads[t].pos);
    forall q: nat | s.config.lapOf(q) < LapNow(s', q) ensures q < s.tail && s.phases[q].Released? {
      if !(s.config.lapOf(q) < LapNow(s, q)) {
        assert Current(s, q) && s.config.granuleOf(q) == granule;
        assert s.config.slotOf(q) in CountedAt(s, q);
      }
    }
  }

  lemma NextLapSlots(s: State, t: nat, c: Choice)
    requires MayMoveOn(s, t) && Laps(s) && Slots(s) && Counted(s) && Surjective(s.config)
    ensures Slots(Step(s, t, c))
  {
    var s' := Step(s, t, c);
    var pos := s.threads[t].pos;
    forall q: nat | Current(s', q)
      ensures SlotAt(s', q) == if q < s'.tail then SlotFor(s'.phases[q], s'.items[q]) else Slot(false, None)
    {
      if s.config.granuleOf(q) == s.config.granuleOf(pos) {
        assert s.config.slotOf(q) in GranuleSlots(s.config, s.config.granuleOf(pos));
        ClosedIsEmpty(s, pos, s.config.slotOf(q));
        assert q < s.tail ==> s.phases[q].Taken?;
      } else {
        assert Current(s, q);
      }
    }
  }

  lemma NextLapThreads(s: State, t: nat, c: Choice)
    requires MayMoveOn(s, t) && Heads(s) && ThreadsOk(s) && Once(s) && Counted(s)
    ensures ThreadsOk(Step(s, t, c)) && Once(Step(s, t, c))
  {
    var s' := Step(s, t, c);
    var granule := s.config.granuleOf(s.threads[t].pos);
    forall u | 0 <= u < |s'.threads| ensures ThreadOk(s', s'.threads[u]) {
      var l := s.threads[u];
      assert ThreadOk(s, l);
      if u != t && s.config.granuleOf(l.pos) == granule && Current(s, l.pos) {
        assert s.config.slotOf(l.pos) in CountedAt(s, l.pos);
      }
    }
  }

  lemma NextLapKeeps(s: State, t: nat, c: Choice)
    requires Inv(s) && t < |s.threads| && s.threads[t].pc.NextLap? && Surjective(s.config) && Grained(s.config)
    ensures Inv(Step(s, t, c))
  {
    var s' := Step(s, t, c);
    assert ThreadOk(s, s.threads[t]);
    NextLapPhases(s, t, c);
    NextLapSlots(s, t, c);
    NextLapThreads(s, t, c);
    OpenStays(s, t, s'.threads[t], s');
    OwnedStays(s, t, s'.threads[t], s');
  }

  // --- every step -----------------------------------------------------------

  /** A position below the tail that was begun and is not done: its granule
      serves its lap. */
  lemma BegunIsCurrent(s: State, q: nat)
    requires Shape(s) && Laps(s) && q < s.tail && !s.phases[q].Taken? && !s.phases[q].Released?
    ensures Current(s, q)
  {}

  lemma ProducerStepKeeps(s: State, t: nat, c: Choice)
    requires Inv(s) && t < |s.threads| && Injective(s.config)
    requires s.threads[t].pc.Build? || s.threads[t].pc.Publish?
    ensures Inv(Step(s, t, c))
  {
    var l := s.threads[t];
    assert ThreadOk(s, l);
    if l.pc.Publish? {
      BegunIsCurrent(s, l.pos);
    }
    assert SlotAt(s, l.pos) == SlotFor(s.phases[l.pos], s.items[l.pos]);
    var phase, l' := if l.pc.Build? then Built else Ready, l.(pc := if l.pc.Build? then Publish else Idle);
    AdvanceKeeps(s, t, l.pos, phase, l');
    assert Step(s, t, c) == Advance(s, t, l.pos, phase, l');
  }

  lemma ClaimKeeps(s: State, t: nat, c: Choice)
    requires Inv(s) && t < |s.threads| && Injective(s.config)
    requires s.threads[t].pc.SwapHead? && s.head == s.threads[t].pos && !c.Fail?
    ensures Inv(Step(s, t, c))
  {
    var l := s.threads[t];
    assert ThreadOk(s, l);
    BegunIsCurrent(s, l.pos);
    assert SlotAt(s, l.pos) == SlotFor(Ready, s.items[l.pos]);
    assert s.slots[s.config.slotOf(l.pos) := SlotFor(Claimed, s.items[l.pos])] == s.slots;
    AdvanceKeeps(s, t, l.pos, Claimed, l.(pc := Move));
    assert Step(s, t, c) == Advance(s, t, l.pos, Claimed, l.(pc := Move));
  }

  lemma MoveKeeps(s: State, t: nat, c: Choice)
    requires Inv(s) && t < |s.threads| && Injective(s.config) && s.threads[t].pc.Move?
    ensures Inv(Step(s, t, c))
  {
    var l := s.threads[t];
    assert ThreadOk(s, l);
    BegunIsCurrent(s, l.pos);
    assert SlotAt(s, l.pos) == SlotFor(Claimed, s.items[l.pos]);
    var l' := l.(pc := ClearState, item := s.items[l.pos]);
    AdvanceKeeps(s, t, l.pos, Moved, l');
    assert Step(s, t, c) == Advance(s, t, l.pos, Moved, l');
  }

  /** What the count finds: the slot was not counted, the granule is not full. */
  lemma NotCounted(s: State, pos: nat)
    requires Shape(s) && Counted(s) && Grained(s.config) && pos < s.tail && Current(s, pos) && !s.phases[pos].Released?
    ensures var granule := s.config.granuleOf(pos); var after := s.counted[granule] + {s.config.slotOf(pos)};
      && s.config.slotOf(pos) !in s.counted[granule]
      && |after| == |s.counted[granule]| + 1 <= s.config.granuleSlots
      && (after == GranuleSlots(s.config, granule) <==> |after| == s.config.granuleSlots)
  {
    var granule := s.config.granuleOf(pos);
    var after := s.counted[granule] + {s.config.slotOf(pos)};
    assert s.config.slotOf(pos) !in CountedAt(s, pos);
    assert after <= GranuleSlots(s.config, granule);
    SubsetOfSize(after, GranuleSlots(s.config, granule));
  }

  lemma SubsetOfSize(a: set<nat>, b: set<nat>)
    requires a <= b
    ensures |a| <= |b| && (|a| == |b| ==> a == b)
  {
    assert b == a + (b - a);
    if a != b {
      assert |b - a| > 0;
    }
  }

  lemma ClearStateMayStep(s: State, t: nat)
    requires Inv(s) && t < |s.threads| && s.threads[t].pc.ClearState?
    ensures s.threads[t].pos < s.tail && Current(s, s.threads[t].pos)
    ensures SlotAt(s, s.threads[t].pos) == SlotFor(Moved, s.items[s.threads[t].pos]) && s.phases[s.threads[t].pos].Moved?
  {
    assert ThreadOk(s, s.threads[t]);
    BegunIsCurrent(s, s.threads[t].pos);
  }

  lemma ClearStateAdvances(s: State, t: nat, c: Choice)
    requires Inv(s) && t < |s.threads| && Injective(s.config) && s.threads[t].pc.ClearState? && s.config.reclaim
    ensures Inv(Step(s, t, c))
  {
    var l := s.threads[t];
    ClearStateMayStep(s, t);
    ClearStateIsAdvance(s, t, c);
    AdvanceKeeps(s, t, l.pos, Cleared, l.(pc := CountPop));
  }

  lemma ClearStateIsAdvance(s: State, t: nat, c: Choice)
    requires Shape(s) && t < |s.threads| && s.threads[t].pc.ClearState? && s.config.reclaim
    requires var l := s.threads[t]; l.pos < s.tail && SlotAt(s, l.pos) == SlotFor(Moved, s.items[l.pos])
    ensures Step(s, t, c) == Advance(s, t, s.threads[t].pos, Cleared, s.threads[t].(pc := CountPop))
  {}

  lemma ClearStateCounts(s: State, t: nat, c: Choice)
    requires Inv(s) && t < |s.threads| && Injective(s.config) && Grained(s.config) && s.threads[t].pc.ClearState?
    requires !s.config.reclaim
    ensures Inv(Step(s, t, c))
  {
    var l := s.threads[t];
    ClearStateMayStep(s, t);
    NotCounted(s, l.pos);
    ClearStateIsCount(s, t, c);
    CountKeeps(s, t, l.(pc := NextLap));
  }

  lemma ClearStateIsCount(s: State, t: nat, c: Choice)
    requires Shape(s) && t < |s.threads| && s.threads[t].pc.ClearState? && !s.config.reclaim
    requires var l := s.threads[t]; l.pos < s.tail && SlotAt(s, l.pos) == SlotFor(Moved, s.items[l.pos])
    ensures Step(s, t, c) == Count(s, t, s.threads[t].(pc := NextLap))
  {}

  lemma ClearStateKeeps(s: State, t: nat, c: Choice)
    requires Inv(s) && t < |s.threads| && Injective(s.config) && Grained(s.config) && s.threads[t].pc.ClearState?
    ensures Inv(Step(s, t, c))
  {
    if s.config.reclaim {
      ClearStateAdvances(s, t, c);
    } else {
      ClearStateCounts(s, t, c);
    }
  }

  /** The pops of a granule that nobody closes are its slots that are counted. */
  lemma PopsAreCounted(s: State, pos: nat)
    requires Shape(s) && ThreadsOk(s) && Open(s) && s.config.reclaim
    requires s.config.slotOf(pos) !in s.counted[s.config.granuleOf(pos)]
    ensures var granule := s.config.granuleOf(pos); s.pops[granule] == |s.counted[granule]|
  {
    NobodyCloses(s, pos);
  }

  ghost function AfterCount(s: State, l: Thread): Thread requires Shape(s) {
    l.(pc := if s.pops[s.config.granuleOf(l.pos)] + 1 != s.config.granuleSlots then Idle else ResetPops)
  }

  lemma CountPopIsCount(s: State, t: nat, c: Choice)
    requires Shape(s) && Slots(s) && t < |s.threads| && s.threads[t].pc.CountPop? && s.threads[t].pos < s.tail
    requires s.phases[s.threads[t].pos].Cleared? && Current(s, s.threads[t].pos) && s.config.reclaim
    ensures Step(s, t, c) == Count(s, t, AfterCount(s, s.threads[t]))
  {
    var l := s.threads[t];
    assert SlotAt(s, l.pos) == SlotFor(Cleared, s.items[l.pos]);
    assert s.slots[s.config.slotOf(l.pos) := Slot(false, None)] == s.slots;
  }

  lemma CountPopKeeps(s: State, t: nat, c: Choice)
    requires Inv(s) && t < |s.threads| && Injective(s.config) && Grained(s.config) && s.threads[t].pc.CountPop?
    ensures Inv(Step(s, t, c))
  {
    var l := s.threads[t];
    assert ThreadOk(s, l);
    BegunIsCurrent(s, l.pos);
    NotCounted(s, l.pos);
    PopsAreCounted(s, l.pos);
    CountPopIsCount(s, t, c);
    CountKeeps(s, t, AfterCount(s, l));
  }

  /** A look at the state of a slot whose granule serves the lap. */
  lemma StateSaysReady(s: State, pos: nat)
    requires Shape(s) && Heads(s) && Slots(s) && Current(s, pos) && pos >= s.head && SlotAt(s, pos).state
    ensures pos < s.tail && s.phases[pos].Ready?
  {}

  lemma LookKeeps(s: State, t: nat, c: Choice)
    requires Inv(s) && t < |s.threads|
    requires var l := s.threads[t];
             || l.pc.Idle? || l.pc.WaitLap? || l.pc.LoadHead? || l.pc.LookLap? || l.pc.LookState?
             || (l.pc.SwapHead? && (s.head != l.pos || c.Fail?))
    ensures Inv(Step(s, t, c))
  {
    var l := s.threads[t];
    var l' := Step(s, t, c).threads[t];
    assert ThreadOk(s, l);
    if l.pc.LookState? && l.pos >= s.head && SlotAt(s, l.pos).state {
      StateSaysReady(s, l.pos);
    }
    assert Step(s, t, c) == SetThread(s, t, l');
    ThreadStepKeeps(s, t, l');
  }

  /** Every step of every thread keeps the invariant. */
  lemma StepKeeps(s: State, t: nat, c: Choice)
    requires Inv(s) && Regular(s.config) && t < |s.threads|
    ensures Inv(Step(s, t, c)) && Step(s, t, c).config == s.config
  {
    match s.threads[t].pc
    case TakeTail => TakeTailKeeps(s, t, c);
    case Build => ProducerStepKeeps(s, t, c);
    case Publish => ProducerStepKeeps(s, t, c);
    case SwapHead =>
      if s.head == s.threads[t].pos && !c.Fail? {
        ClaimKeeps(s, t, c);
      } else {
        LookKeeps(s, t, c);
      }
    case Move => MoveKeeps(s, t, c);
    case ClearState => ClearStateKeeps(s, t, c);
    case CountPop => CountPopKeeps(s, t, c);
    case ResetPops => ResetPopsKeeps(s, t, c);
    case Discard => DiscardKeeps(s, t, c);
    case NextLap => NextLapKeeps(s, t, c);
    case _ => LookKeeps(s, t, c);
  }
}
