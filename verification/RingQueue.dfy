/**
 The ring queue of the pool and the background lane (ring_queue.hpp): any
 number of producers in place and of consumers in tryPop, one step of a thread
 per access to an atomic. Positions are unbounded.
 */
module RingQueue {
  import opened Options

  /** How positions map to laps, slots and granules. slots: REAL_CAP.
      granuleSlots: GRANULE_SLOTS, one slot unless the ring spans several
      blocks and gives their memory back (reclaim). placeAt: the position of a
      slot in a lap. The steps only use the functions; RingRuns.Ring has those
      of the ring. */
  datatype Config = Config(
    slots: nat, granules: nat, granuleSlots: nat, reclaim: bool,
    lapOf: nat -> nat, slotOf: nat -> nat, placeAt: (nat, nat) -> nat, granuleOfSlot: nat -> nat)
  {
    function granuleOf(pos: nat): nat { granuleOfSlot(slotOf(pos)) }

    ghost predicate Valid() {
      forall pos: nat :: slotOf(pos) < slots && granuleOfSlot(slotOf(pos)) < granules
    }
  }

  /** state: whether the slot has an item to pop. item: what is constructed in its storage. */
  datatype Slot = Slot(state: bool, item: Option<nat>)

  /** What became of a position: taken by a producer, its item constructed,
      published; claimed by a consumer, its item moved out, its state cleared,
      counted as popped. */
  datatype Phase = Taken | Built | Ready | Claimed | Moved | Cleared | Released

  datatype Pc =
    | Idle
    | TakeTail | WaitLap | Build | Publish
    | LoadHead | LookLap | LookState | SwapHead
    | Move | ClearState | CountPop | ResetPops | Discard | NextLap

  datatype Thread = Thread(pc: Pc, pos: nat, item: nat)

  /** phases and items say what became of every position below the tail, and
      which item its producer brought; got: what the consumers moved out;
      counted: the slots of a granule counted as popped in its lap. */
  datatype State = State(
    config: Config, head: nat, tail: nat, laps: seq<nat>, pops: seq<nat>, slots: seq<Slot>,
    threads: seq<Thread>, phases: seq<Phase>, items: seq<nat>, got: map<nat, nat>, counted: seq<set<nat>>)

  datatype Choice = Go | Fail | Push(item: nat) | Pop

  ghost predicate Shape(s: State) {
    && s.config.Valid()
    && |s.laps| == |s.pops| == |s.counted| == s.config.granules
    && |s.slots| == s.config.slots
    && |s.phases| == |s.items| == s.tail
  }

  function SetThread(s: State, t: nat, l: Thread): State
    requires t < |s.threads|
  {
    s.(threads := s.threads[t := l])
  }

  function SetPhase(s: State, pos: nat, phase: Phase): State {
    if pos < |s.phases| then s.(phases := s.phases[pos := phase]) else s
  }

  /** One step of thread t. */
  ghost function Step(s: State, t: nat, c: Choice): State
    requires Shape(s) && t < |s.threads|
  {
    var l := s.threads[t];
    var pos := l.pos;
    var slot, granule, lap := s.config.slotOf(pos), s.config.granuleOf(pos), s.config.lapOf(pos);
    match l.pc
    case Idle =>
      SetThread(s, t, if c.Push? then l.(pc := TakeTail, item := c.item) else if c.Pop? then l.(pc := LoadHead) else l)
    // place
    case TakeTail =>
      SetThread(s.(tail := s.tail + 1, phases := s.phases + [Taken], items := s.items + [l.item]), t,
                l.(pc := WaitLap, pos := s.tail))
    case WaitLap => SetThread(s, t, if s.laps[granule] == lap then l.(pc := Build) else l)
    case Build =>
      SetThread(SetPhase(s.(slots := s.slots[slot := s.slots[slot].(item := Some(l.item))]), pos, Built), t,
                l.(pc := Publish))
    case Publish =>
      SetThread(SetPhase(s.(slots := s.slots[slot := s.slots[slot].(state := true)]), pos, Ready), t, l.(pc := Idle))
    // tryPop
    case LoadHead => SetThread(s, t, l.(pc := LookLap, pos := s.head))
    case LookLap => SetThread(s, t, l.(pc := if s.laps[granule] != lap then Idle else LookState))
    case LookState => SetThread(s, t, l.(pc := if s.slots[slot].state then SwapHead else Idle))
    case SwapHead =>
      if s.head == pos && !c.Fail?
      then SetThread(SetPhase(s.(head := s.head + 1), pos, Claimed), t, l.(pc := Move))
      else SetThread(s, t, l.(pc := LookLap, pos := s.head))
    case Move =>
      var item := match s.slots[slot].item case Some(i) => i case None => 0;
      SetThread(SetPhase(s.(slots := s.slots[slot := s.slots[slot].(item := None)], got := s.got[pos := item]), pos, Moved),
                t, l.(pc := ClearState, item := item))
    case ClearState =>
      var cleared := s.(slots := s.slots[slot := s.slots[slot].(state := false)]);
      if s.config.reclaim then SetThread(SetPhase(cleared, pos, Cleared), t, l.(pc := CountPop))
      else
        SetThread(SetPhase(cleared.(counted := s.counted[granule := s.counted[granule] + {slot}]), pos, Released), t,
                  l.(pc := NextLap))
    // release
    case CountPop =>
      SetThread(SetPhase(s.(pops := s.pops[granule := s.pops[granule] + 1],
                            counted := s.counted[granule := s.counted[granule] + {slot}]), pos, Released), t,
                l.(pc := if s.pops[granule] + 1 != s.config.granuleSlots then Idle else ResetPops))
    case ResetPops => SetThread(s.(pops := s.pops[granule := 0]), t, l.(pc := Discard))
    case Discard =>
      SetThread(s.(slots := seq(|s.slots|, k requires 0 <= k < |s.slots| =>
                     if s.config.granuleOfSlot(k) == granule then Slot(false, None) else s.slots[k])), t, l.(pc := NextLap))
    case NextLap =>
      SetThread(s.(laps := s.laps[granule := lap + 1], counted := s.counted[granule := {}]), t, l.(pc := Idle))
  }
}
