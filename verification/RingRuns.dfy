/** What holds in every run of the ring queue. */
module RingRuns {
  import opened Options
  import opened RingQueue
  import opened RingInvariant
  import opened Bits
  import Division

  // --- the geometry of the ring ---------------------------------------------

  function Times(a: nat, b: nat): nat { a * b }

  /** SLOT_MASK, lapOf and granuleOf of a ring of 2^capShift slots, in granules
      of 2^granuleShift. */
  ghost function Ring(capShift: nat, granuleShift: nat, reclaim: bool): Config
    requires granuleShift <= capShift
  {
    Config(Pow2(capShift), Pow2(capShift - granuleShift), Pow2(granuleShift), reclaim,
           (pos: nat) => ShiftRight(pos, capShift), (pos: nat) => And(pos, Pow2(capShift) - 1),
           (lap: nat, slot: nat) => Times(lap, Pow2(capShift)) + slot, (slot: nat) => ShiftRight(slot, granuleShift))
  }

  /** Slot and lap of a position are its remainder and its quotient. */
  ghost predicate Divides(c: Config) {
    && c.slots > 0
    && (forall pos: nat :: c.slotOf(pos) == pos % c.slots && c.lapOf(pos) == pos / c.slots)
    && (forall lap: nat, slot: nat :: c.placeAt(lap, slot) == lap * c.slots + slot)
  }

  /** What masks and shifts come to. */
  lemma RingDivides(capShift: nat, granuleShift: nat, reclaim: bool)
    requires granuleShift <= capShift
    ensures Divides(Ring(capShift, granuleShift, reclaim))
  {
    var c := Ring(capShift, granuleShift, reclaim);
    forall pos: nat ensures c.slotOf(pos) == pos % c.slots && c.lapOf(pos) == pos / c.slots {
      MaskIsRemainder(pos, capShift);
      ShiftIsQuotient(pos, capShift);
    }
  }

  /** Granules are runs of slots. */
  ghost predicate Granular(c: Config) {
    && c.granuleSlots > 0 && c.granules > 0 && c.slots == c.granules * c.granuleSlots
    && (forall slot: nat :: c.granuleOfSlot(slot) == slot / c.granuleSlots)
  }

  lemma RingIsGranular(capShift: nat, granuleShift: nat, reclaim: bool)
    requires granuleShift <= capShift
    ensures Granular(Ring(capShift, granuleShift, reclaim))
  {
    var c := Ring(capShift, granuleShift, reclaim);
    PowersDivide(capShift, granuleShift);
    forall slot: nat ensures c.granuleOfSlot(slot) == slot / c.granuleSlots {
      ShiftIsQuotient(slot, granuleShift);
    }
  }

  lemma DividesIsValid(c: Config)
    requires Divides(c) && Granular(c)
    ensures c.Valid()
  {
    forall pos: nat ensures c.slotOf(pos) < c.slots && c.granuleOfSlot(c.slotOf(pos)) < c.granules {
      Division.QuotientBelow(pos % c.slots, c.granuleSlots, c.granules);
    }
  }

  lemma RingIsValid(capShift: nat, granuleShift: nat, reclaim: bool)
    requires granuleShift <= capShift
    ensures Ring(capShift, granuleShift, reclaim).Valid()
  {
    RingDivides(capShift, granuleShift, reclaim);
    RingIsGranular(capShift, granuleShift, reclaim);
    DividesIsValid(Ring(capShift, granuleShift, reclaim));
  }

  lemma DividesIsInjective(c: Config)
    requires Divides(c)
    ensures Injective(c)
  {
    var n := c.slots;
    forall p: nat, q: nat | c.slotOf(p) == c.slotOf(q) && c.lapOf(p) == c.lapOf(q) ensures p == q {
      assert p == p / n * n + p % n && q == q / n * n + q % n;
    }
  }

  lemma DividesIsSurjective(c: Config)
    requires Divides(c)
    ensures Surjective(c)
  {
    forall lap: nat, slot: nat | slot < c.slots
      ensures c.slotOf(c.placeAt(lap, slot)) == slot && c.lapOf(c.placeAt(lap, slot)) == lap
    {
      Division.Unique(lap * c.slots + slot, c.slots, lap, slot);
    }
  }

  lemma DividesIsMonotone(c: Config)
    requires Divides(c)
    ensures Monotone(c)
  {
    forall p: nat, q: nat | c.lapOf(p) < c.lapOf(q) ensures p < q {
      Division.QuotientMonotone(p, q, c.slots);
    }
  }

  lemma RingIsPeriodic(capShift: nat, granuleShift: nat, reclaim: bool)
    requires granuleShift <= capShift
    ensures var c := Ring(capShift, granuleShift, reclaim); Injective(c) && Surjective(c) && Monotone(c)
  {
    var c := Ring(capShift, granuleShift, reclaim);
    RingDivides(capShift, granuleShift, reclaim);
    DividesIsInjective(c);
    DividesIsSurjective(c);
    DividesIsMonotone(c);
  }

  /** The numbers from a up to a + n. */
  function Range(a: nat, n: nat): (r: set<nat>)
    ensures |r| == n
    ensures forall k: nat :: k in r <==> a <= k < a + n
  {
    if n == 0 then {} else Range(a, n - 1) + {a + n - 1}
  }

  lemma EndsInside(granule: nat, granules: nat, n: nat)
    requires granule < granules
    ensures granule * n + n <= granules * n
  {
    var more := granules - granule;
    Division.AtLeastOnce(more, n);
    assert granules * n == (granule + more) * n == granule * n + more * n;
  }

  lemma GranuleIsRange(c: Config, granule: nat)
    requires Granular(c) && granule < c.granules
    ensures |GranuleSlots(c, granule)| == c.granuleSlots
  {
    var first, n := Times(granule, c.granuleSlots), c.granuleSlots;
    EndsInside(granule, c.granules, n);
    forall k: nat ensures k in GranuleSlots(c, granule) <==> k in Range(first, n) {
      Division.QuotientIs(k, n, granule);
    }
    assert GranuleSlots(c, granule) == Range(first, n);
  }

  lemma GranularIsGrained(c: Config)
    requires Granular(c) && (!c.reclaim ==> c.granuleSlots == 1)
    ensures Grained(c)
  {
    forall granule | 0 <= granule < c.granules ensures |GranuleSlots(c, granule)| == c.granuleSlots {
      GranuleIsRange(c, granule);
    }
  }

  lemma RingIsGrained(capShift: nat, granuleShift: nat, reclaim: bool)
    requires granuleShift <= capShift && (!reclaim ==> granuleShift == 0)
    ensures Grained(Ring(capShift, granuleShift, reclaim))
  {
    RingIsGranular(capShift, granuleShift, reclaim);
    GranularIsGrained(Ring(capShift, granuleShift, reclaim));
  }

  // --- runs -----------------------------------------------------------------

  datatype Turn = Turn(thread: nat, choice: Choice)

  ghost predicate Initial(s: State, capShift: nat, granuleShift: nat, reclaim: bool) {
    && granuleShift <= capShift && (!reclaim ==> granuleShift == 0)
    && s.config == Ring(capShift, granuleShift, reclaim) && Untouched(s)
  }

  /** Nothing was pushed yet. */
  ghost predicate Untouched(s: State) {
    && Shape(s) && s.head == 0 && s.tail == 0 && s.got == map[]
    && (forall granule | 0 <= granule < s.config.granules ::
          s.laps[granule] == 0 && s.pops[granule] == 0 && s.counted[granule] == {})
    && (forall k | 0 <= k < |s.slots| :: s.slots[k] == Slot(false, None))
    && (forall t | 0 <= t < |s.threads| :: s.threads[t].pc.Idle?)
  }

  /** The state after the turns, in any interleaving; a turn of no thread does nothing. */
  ghost function Run(s: State, turns: seq<Turn>): State {
    if turns == [] then s
    else
      var before := Run(s, turns[..|turns| - 1]);
      var last := turns[|turns| - 1];
      if Shape(before) && last.thread < |before.threads| then Step(before, last.thread, last.choice) else before
  }

  lemma UntouchedInv(s: State)
    requires Untouched(s) && Regular(s.config)
    ensures Inv(s)
  {
    assert forall granule | 0 <= granule < s.config.granules :: GranuleSlots(s.config, granule) != {};
  }

  lemma InitialInv(s: State, capShift: nat, granuleShift: nat, reclaim: bool)
    requires Initial(s, capShift, granuleShift, reclaim)
    ensures Inv(s) && Regular(s.config)
  {
    RingIsPeriodic(capShift, granuleShift, reclaim);
    RingIsGrained(capShift, granuleShift, reclaim);
    UntouchedInv(s);
  }

  lemma {:induction false} RunInv(s: State, turns: seq<Turn>, capShift: nat, granuleShift: nat, reclaim: bool)
    requires Initial(s, capShift, granuleShift, reclaim)
    ensures Inv(Run(s, turns)) && Regular(Run(s, turns).config)
  {
    if turns == [] {
      InitialInv(s, capShift, granuleShift, reclaim);
    } else {
      RunInv(s, turns[..|turns| - 1], capShift, granuleShift, reclaim);
      var before := Run(s, turns[..|turns| - 1]);
      var last := turns[|turns| - 1];
      if last.thread < |before.threads| {
        StepKeeps(before, last.thread, last.choice);
      }
    }
  }

  /** In every interleaving: positions are claimed in the order the producers
      took them, each by one consumer, which moves out exactly the item of that
      position's producer, and did not before. */
  lemma ItemsLeaveInOrder(s: State, turns: seq<Turn>, capShift: nat, granuleShift: nat, reclaim: bool, q: nat)
    requires Initial(s, capShift, granuleShift, reclaim)
    ensures var r := Run(s, turns);
      && Shape(r) && r.head <= r.tail
      && (q in r.got ==> q < r.head && r.got[q] == r.items[q])
      && (q < r.head && q !in r.got ==> exists t :: 0 <= t < |r.threads| && r.threads[t].pc.Move? && r.threads[t].pos == q)
      && (forall t | 0 <= t < |r.threads| && r.threads[t].pc.Move? ::
            var pos := r.threads[t].pos;
            && pos < r.head && pos !in r.got
            && SlotAt(r, pos) == Slot(true, Some(r.items[pos]))
            && (forall u | 0 <= u < |r.threads| && u != t && Owner(r.threads[u].pc) :: r.threads[u].pos != pos))
  {
    RunInv(s, turns, capShift, granuleShift, reclaim);
    var r := Run(s, turns);
    if q < r.head && q !in r.got {
      var t :| 0 <= t < |r.threads| && Owns(r.threads[t], q);
      assert ThreadOk(r, r.threads[t]);
      assert r.threads[t].pc.Move?;
    }
    forall t | 0 <= t < |r.threads| && r.threads[t].pc.Move?
      ensures var pos := r.threads[t].pos;
        pos < r.head && pos !in r.got && SlotAt(r, pos) == Slot(true, Some(r.items[pos]))
    {
      assert ThreadOk(r, r.threads[t]);
      BegunIsCurrent(r, r.threads[t].pos);
    }
  }

  /** A producer constructs only where no item of the lap before is left and no
      consumer of it is at the slot; a block is discarded only with all its
      states zero and nothing in it. */
  lemma SlotsAreNotShared(s: State, turns: seq<Turn>, capShift: nat, granuleShift: nat, reclaim: bool, t: nat)
    requires Initial(s, capShift, granuleShift, reclaim)
    requires t < |Run(s, turns).threads|
    ensures var r := Run(s, turns); var l := r.threads[t];
      && Shape(r)
      && (l.pc.Build? ==>
            && SlotAt(r, l.pos) == Slot(false, None)
            && (forall u | 0 <= u < |r.threads| && (r.threads[u].pc.Move? || r.threads[u].pc.ClearState?) ::
                  r.config.slotOf(r.threads[u].pos) != r.config.slotOf(l.pos)))
      && (l.pc.Discard? ==>
            forall k | 0 <= k < |r.slots| && r.config.granuleOfSlot(k) == r.config.granuleOf(l.pos) ::
              r.slots[k] == Slot(false, None))
  {
    RunInv(s, turns, capShift, granuleShift, reclaim);
    var r := Run(s, turns);
    var l := r.threads[t];
    assert ThreadOk(r, l);
    if l.pc.Build? {
      forall u | 0 <= u < |r.threads| && (r.threads[u].pc.Move? || r.threads[u].pc.ClearState?)
        ensures r.config.slotOf(r.threads[u].pos) != r.config.slotOf(l.pos)
      {
        assert ThreadOk(r, r.threads[u]);
        BegunIsCurrent(r, r.threads[u].pos);
      }
    }
    if l.pc.Discard? {
      forall k | 0 <= k < |r.slots| && r.config.granuleOfSlot(k) == r.config.granuleOf(l.pos)
        ensures r.slots[k] == Slot(false, None)
      {
        ClosedIsEmpty(r, l.pos, k);
      }
    }
  }

  /** A producer waits only while a position of its granule of an earlier lap is
      not popped, or while the thread that popped the last one moves the granule on. */
  lemma WaitsForEarlierLaps(s: State, turns: seq<Turn>, capShift: nat, granuleShift: nat, reclaim: bool, t: nat)
    requires Initial(s, capShift, granuleShift, reclaim)
    requires t < |Run(s, turns).threads| && Run(s, turns).threads[t].pc.WaitLap?
    ensures var r := Run(s, turns); var pos := r.threads[t].pos;
      && Shape(r)
      && (r.laps[r.config.granuleOf(pos)] != r.config.lapOf(pos) ==>
            || (exists q: nat :: q < pos && r.config.granuleOf(q) == r.config.granuleOf(pos) && q < r.tail &&
                                 r.config.lapOf(q) < r.config.lapOf(pos) && !r.phases[q].Released?)
            || (exists u :: 0 <= u < |r.threads| && Closes(r.config, r.threads[u], r.config.granuleOf(pos))))
  {
    RunInv(s, turns, capShift, granuleShift, reclaim);
    var r := Run(s, turns);
    var pos := r.threads[t].pos;
    var granule := r.config.granuleOf(pos);
    assert ThreadOk(r, r.threads[t]);
    if r.laps[granule] != r.config.lapOf(pos) &&
       !(exists u :: 0 <= u < |r.threads| && Closes(r.config, r.threads[u], granule))
    {
      assert r.laps[granule] < r.config.lapOf(pos);
      assert r.counted[granule] != GranuleSlots(r.config, granule);
      var k :| k in GranuleSlots(r.config, granule) && k !in r.counted[granule];
      var q := r.config.placeAt(r.laps[granule], k);
      assert Current(r, q) && q < pos;
      assert r.config.slotOf(q) !in CountedAt(r, q);
    }
  }

  /** Nothing is lost: once no thread is inside, every item that was pushed was
      either moved out in its turn or is in its slot, ready, in order. */
  lemma AtRestNothingIsLost(s: State, turns: seq<Turn>, capShift: nat, granuleShift: nat, reclaim: bool, q: nat)
    requires Initial(s, capShift, granuleShift, reclaim)
    requires forall t | 0 <= t < |Run(s, turns).threads| :: Run(s, turns).threads[t].pc.Idle?
    ensures var r := Run(s, turns);
      && Shape(r) && r.head <= r.tail
      && (q < r.head <==> q in r.got)
      && (q < r.head ==> r.got[q] == r.items[q])
      && (r.head <= q < r.tail ==> SlotAt(r, q) == Slot(true, Some(r.items[q])))
  {
    RunInv(s, turns, capShift, granuleShift, reclaim);
    var r := Run(s, turns);
    if q < r.tail {
      assert r.phases[q].Ready? || r.phases[q].Released?;
      if r.phases[q].Ready? {
        BegunIsCurrent(r, q);
      }
    }
  }
}
