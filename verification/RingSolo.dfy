/**
 What a pop and a push of the ring queue come to: with an item at the head a pop
 does not give up, and alone it takes that item; a push alone puts its item at
 the tail exactly if there is room.
 */
module RingSolo {
  import opened Options
  import opened RingQueue
  import opened RingInvariant
  import opened RingRuns

  predicate InPop(pc: Pc) { pc.LoadHead? || pc.LookLap? || pc.LookState? || pc.SwapHead? }

  /** What a pop looks at where an item is ready. */
  lemma ReadyIsSeen(s: State, q: nat)
    requires Inv(s) && q < s.tail && s.phases[q].Ready?
    ensures Current(s, q) && SlotAt(s, q) == Slot(true, Some(s.items[q]))
  {
    BegunIsCurrent(s, q);
  }

  /** In every interleaving: a pop at the head does not give up while the item
      there is ready. */
  lemma PopDoesNotGiveUp(s: State, turns: seq<Turn>, capShift: nat, granuleShift: nat, reclaim: bool, t: nat, c: Choice)
    requires Initial(s, capShift, granuleShift, reclaim) && t < |Run(s, turns).threads|
    requires var r := Run(s, turns); Shape(r) && r.head < r.tail && r.phases[r.head].Ready?
    requires var r := Run(s, turns); InPop(r.threads[t].pc) && (r.threads[t].pc.LoadHead? || r.threads[t].pos == r.head)
    ensures !Step(Run(s, turns), t, c).threads[t].pc.Idle?
  {
    RunInv(s, turns, capShift, granuleShift, reclaim);
    ReadyIsSeen(Run(s, turns), Run(s, turns).head);
  }

  /** And it gives up only where it sees no item at the position it looks at,
      never because another pop was faster. */
  lemma PopGivesUpOnALook(s: State, turns: seq<Turn>, capShift: nat, granuleShift: nat, reclaim: bool, t: nat, c: Choice)
    requires Initial(s, capShift, granuleShift, reclaim) && t < |Run(s, turns).threads| && Shape(Run(s, turns))
    requires InPop(Run(s, turns).threads[t].pc) && Step(Run(s, turns), t, c).threads[t].pc.Idle?
    ensures var r := Run(s, turns); var pos := r.threads[t].pos;
      r.laps[r.config.granuleOf(pos)] != r.config.lapOf(pos) || !r.slots[r.config.slotOf(pos)].state
  {
    RunInv(s, turns, capShift, granuleShift, reclaim);
    assert ThreadOk(Run(s, turns), Run(s, turns).threads[t]);
  }

  // --- alone ----------------------------------------------------------------

  /** n steps of the thread, without a spurious failure of an exchange. */
  ghost function Alone(s: State, t: nat, n: nat): State
    decreases n
  {
    if n == 0 || !Shape(s) || t >= |s.threads| then s else Alone(Step(s, t, Go), t, n - 1)
  }

  ghost predicate OthersIdle(s: State, t: nat) { forall u | 0 <= u < |s.threads| && u != t :: s.threads[u].pc.Idle? }

  ghost predicate AllIdle(s: State) { forall t | 0 <= t < |s.threads| :: s.threads[t].pc.Idle? }

  /** With nobody inside, what is not popped is ready. */
  lemma AtRestIsReady(s: State, q: nat)
    requires Inv(s) && AllIdle(s) && s.head <= q < s.tail
    ensures s.phases[q].Ready?
  {
    assert BeforeClaim(s.phases[q]);
  }

  predicate InRelease(pc: Pc) { pc.ClearState? || pc.CountPop? || pc.ResetPops? || pc.Discard? || pc.NextLap? }

  /** A pop alone, from a state r in which nobody was inside. */
  ghost predicate Pops(r: State, s: State, t: nat) {
    && t < |s.threads| == |r.threads| && OthersIdle(s, t)
    && s.config == r.config && s.tail == r.tail && s.items == r.items
    && var l := s.threads[t];
       if InPop(l.pc) || (l.pc.Idle? && r.head == r.tail) then
         s == r.(threads := s.threads) && (l.pc.LoadHead? || l.pc.Idle? || l.pos == r.head)
       else
         && r.head < r.tail <= |r.items| && s.head == r.head + 1 && (InRelease(l.pc) || l.pc.Move? || l.pc.Idle?)
         && (l.pc.Move? ==> l.pos == r.head)
         && s.got == if l.pc.Move? then r.got else r.got[r.head := r.items[r.head]]
  }

  function PopRank(pc: Pc): nat {
    match pc
    case LoadHead => 9 case LookLap => 8 case LookState => 7 case SwapHead => 6 case Move => 5 case ClearState => 4
    case CountPop => 3 case ResetPops => 2 case Discard => 1 case NextLap => 0 case _ => 0
  }

  lemma LookPops(r: State, s: State, t: nat)
    requires Inv(r) && AllIdle(r) && Inv(s) && Pops(r, s, t) && InPop(s.threads[t].pc)
    ensures var s' := Step(s, t, Go);
      Pops(r, s', t) && (s'.threads[t].pc.Idle? || PopRank(s'.threads[t].pc) < PopRank(s.threads[t].pc))
  {
    if r.head < r.tail {
      AtRestIsReady(r, r.head);
      ReadyIsSeen(r, r.head);
    } else if s.threads[t].pc.LookState? {
      assert ThreadOk(s, s.threads[t]);
      assert SlotAt(s, s.head) == Slot(false, None);
    }
    assert ThreadOk(s, s.threads[t]);
  }

  lemma MovePops(r: State, s: State, t: nat)
    requires Inv(s) && Pops(r, s, t) && s.threads[t].pc.Move?
    ensures var s' := Step(s, t, Go); Pops(r, s', t) && PopRank(s'.threads[t].pc) < PopRank(s.threads[t].pc)
  {
    var l := s.threads[t];
    assert ThreadOk(s, l);
    BegunIsCurrent(s, l.pos);
  }

  lemma ReleasePops(r: State, s: State, t: nat)
    requires Shape(s) && Pops(r, s, t) && InRelease(s.threads[t].pc)
    ensures var s' := Step(s, t, Go);
      Pops(r, s', t) && (s'.threads[t].pc.Idle? || PopRank(s'.threads[t].pc) < PopRank(s.threads[t].pc))
  {}

  lemma NextOfPop(r: State, s: State, t: nat) returns (s': State)
    requires Inv(r) && AllIdle(r) && Inv(s) && Regular(s.config) && Pops(r, s, t) && !s.threads[t].pc.Idle?
    ensures Inv(s') && Regular(s'.config) && Pops(r, s', t) && forall n: nat :: Alone(s, t, n + 1) == Alone(s', t, n)
    ensures s'.threads[t].pc.Idle? || PopRank(s'.threads[t].pc) < PopRank(s.threads[t].pc)
  {
    var pc := s.threads[t].pc;
    if InPop(pc) {
      LookPops(r, s, t);
    } else if pc.Move? {
      MovePops(r, s, t);
    } else {
      ReleasePops(r, s, t);
    }
    StepKeeps(s, t, Go);
    s' := Step(s, t, Go);
  }

  ghost predicate IsPopped(r: State, e: State, t: nat) { Pops(r, e, t) && e.threads[t].pc.Idle? }

  lemma {:induction false} PopGoes(r: State, s: State, t: nat) returns (n: nat)
    requires Inv(r) && AllIdle(r) && Inv(s) && Regular(s.config) && Pops(r, s, t)
    ensures IsPopped(r, Alone(s, t, n), t)
    decreases if s.threads[t].pc.Idle? then 0 else 1, PopRank(s.threads[t].pc)
  {
    if s.threads[t].pc.Idle? {
      n := 0;
      assert Alone(s, t, 0) == s;
    } else {
      var s' := NextOfPop(r, s, t);
      n := PopGoes(r, s', t);
      assert Alone(s, t, n + 1) == Alone(s', t, n);
      n := n + 1;
    }
  }

  /** n turns of the thread. */
  function Turns(t: nat, n: nat): seq<Turn> { seq(n, _ => Turn(t, Go)) }

  lemma {:induction false} RunAlone(s: State, turns: seq<Turn>, t: nat, n: nat)
    ensures Run(s, turns + Turns(t, n)) == Alone(Run(s, turns), t, n)
    decreases n
  {
    if n == 0 {
      assert turns + Turns(t, 0) == turns;
    } else {
      var next := turns + [Turn(t, Go)];
      assert turns + Turns(t, n) == next + Turns(t, n - 1);
      assert next[..|next| - 1] == turns;
      RunAlone(s, next, t, n - 1);
      if !Shape(Run(s, turns)) || t >= |Run(s, turns).threads| {
        AloneStays(Run(s, turns), t, n - 1);
      }
    }
  }

  lemma AloneStays(s: State, t: nat, n: nat)
    requires !Shape(s) || t >= |s.threads| || s.threads[t].pc.Idle?
    ensures Alone(s, t, n) == s
    decreases n
  {
    if n > 0 && Shape(s) && t < |s.threads| {
      assert Step(s, t, Go) == s;
    }
  }

  lemma RunBegins(s: State, turns: seq<Turn>, capShift: nat, granuleShift: nat, reclaim: bool, t: nat, c: Choice)
    requires Initial(s, capShift, granuleShift, reclaim) && t < |Run(s, turns).threads| && Run(s, turns).threads[t].pc.Idle?
    ensures Inv(Run(s, turns)) && Regular(Run(s, turns).config)
    ensures Run(s, turns + [Turn(t, c)]) == Step(Run(s, turns), t, c)
    ensures Inv(Step(Run(s, turns), t, c)) && Regular(Step(Run(s, turns), t, c).config)
  {
    RunInv(s, turns, capShift, granuleShift, reclaim);
    RunInv(s, turns + [Turn(t, c)], capShift, granuleShift, reclaim);
    var begun := turns + [Turn(t, c)];
    assert begun[..|begun| - 1] == turns;
  }

  lemma PopBegins(r: State, t: nat)
    requires Shape(r) && AllIdle(r) && t < |r.threads|
    ensures Pops(r, Step(r, t, Pop), t)
  {}

  /** tryPop, begun when nobody is inside and met by nobody, ends: with an item
      in the queue it moves out the item at the head, and otherwise it changes
      nothing. */
  lemma PopEnds(s: State, turns: seq<Turn>, capShift: nat, granuleShift: nat, reclaim: bool, t: nat) returns (n: nat)
    requires Initial(s, capShift, granuleShift, reclaim) && AllIdle(Run(s, turns)) && t < |Run(s, turns).threads|
    ensures var r, e := Run(s, turns), Run(s, turns + [Turn(t, Pop)] + Turns(t, n));
      && AllIdle(e) && |r.items| == r.tail && e.tail == r.tail && e.items == r.items && r.head <= r.tail
      && (r.head < r.tail ==> e.head == r.head + 1 && e.got == r.got[r.head := r.items[r.head]])
      && (r.head == r.tail ==> e == r.(threads := e.threads))
  {
    var r, begun := Run(s, turns), turns + [Turn(t, Pop)];
    RunBegins(s, turns, capShift, granuleShift, reclaim, t, Pop);
    PopBegins(r, t);
    n := PopGoes(r, Step(r, t, Pop), t);
    RunAlone(s, begun, t, n);
  }

  // --- push -----------------------------------------------------------------

  /** The positions of earlier laps that share a granule with this one are popped. */
  ghost predicate HasRoom(s: State, pos: nat) {
    forall q: nat | q < pos && s.config.granuleOf(q) == s.config.granuleOf(pos) && s.config.lapOf(q) < s.config.lapOf(pos) ::
      q < s.head
  }

  /** At rest, that is when the granule of the tail serves its lap. */
  lemma RoomIsCurrent(r: State)
    requires Inv(r) && Regular(r.config) && AllIdle(r)
    ensures Current(r, r.tail) <==> HasRoom(r, r.tail)
  {
    var pos := r.tail;
    var granule := r.config.granuleOf(pos);
    if Current(r, pos) {
      forall q: nat | q < pos && r.config.granuleOf(q) == granule && r.config.lapOf(q) < r.config.lapOf(pos) ensures q < r.head {
        assert r.config.lapOf(q) < LapNow(r, q);
      }
    } else {
      assert LapNow(r, pos) < r.config.lapOf(pos);
      assert forall u | 0 <= u < |r.threads| :: !Closes(r.config, r.threads[u], granule);
      var k :| k in GranuleSlots(r.config, granule) && k !in r.counted[granule];
      var q := r.config.placeAt(r.laps[granule], k);
      assert Current(r, q) && q < pos && r.config.granuleOf(q) == granule;
      assert r.config.slotOf(q) !in CountedAt(r, q);
      assert !r.phases[q].Released?;
    }
  }

  /** A push alone: before it has its place, and from then on. */
  ghost predicate Pushes(r: State, s: State, t: nat, item: nat) {
    && t < |s.threads| == |r.threads| && OthersIdle(s, t) && s.config == r.config && s.head == r.head && s.got == r.got
    && s.laps == r.laps && |r.phases| == r.tail
    && var l := s.threads[t];
       && (l.pc.TakeTail? || l.pc.WaitLap? || l.pc.Build? || l.pc.Publish? || l.pc.Idle?)
       && (l.pc.TakeTail? ==> s.tail == r.tail && s.items == r.items && s.phases == r.phases && l.item == item)
       && (!l.pc.TakeTail? ==>
             && s.tail == r.tail + 1 && s.items == r.items + [item] && (l.pc.Idle? || l.pos == r.tail)
             && |s.phases| == s.tail && s.phases[..r.tail] == r.phases
             && (l.pc.Idle? ==> s.phases[r.tail].Ready?))
  }

  function PushRank(pc: Pc): nat {
    match pc case TakeTail => 4 case WaitLap => 3 case Build => 2 case Publish => 1 case _ => 0
  }

  /** Only the wait for the lap does not get on by itself. */
  lemma PushStep(r: State, s: State, t: nat, item: nat)
    requires Inv(s) && Pushes(r, s, t, item) && !s.threads[t].pc.Idle?
    ensures Pushes(r, Step(s, t, Go), t, item)
    ensures s.threads[t].pc.WaitLap? && r.laps[s.config.granuleOf(r.tail)] != s.config.lapOf(r.tail) ==> Step(s, t, Go) == s
    ensures !(s.threads[t].pc.WaitLap? && r.laps[s.config.granuleOf(r.tail)] != s.config.lapOf(r.tail)) ==>
              PushRank(Step(s, t, Go).threads[t].pc) < PushRank(s.threads[t].pc)
  {
    assert ThreadOk(s, s.threads[t]);
  }

  ghost predicate IsPushed(r: State, e: State, t: nat, item: nat) { Pushes(r, e, t, item) && e.threads[t].pc.Idle? }

  lemma {:induction false} PushGoes(r: State, s: State, t: nat, item: nat) returns (n: nat)
    requires Inv(r) && Current(r, r.tail) && Inv(s) && Regular(s.config) && Pushes(r, s, t, item)
    ensures IsPushed(r, Alone(s, t, n), t, item)
    decreases PushRank(s.threads[t].pc)
  {
    if s.threads[t].pc.Idle? {
      n := 0;
      assert Alone(s, t, 0) == s;
    } else {
      PushStep(r, s, t, item);
      StepKeeps(s, t, Go);
      n := PushGoes(r, Step(s, t, Go), t, item);
      assert Alone(s, t, n + 1) == Alone(Step(s, t, Go), t, n);
      n := n + 1;
    }
  }

  /** Without room it never leaves its wait. */
  lemma {:induction false} PushWaits(r: State, s: State, t: nat, item: nat, n: nat)
    requires Inv(r) && !Current(r, r.tail) && Inv(s) && Regular(s.config) && Pushes(r, s, t, item)
    requires s.threads[t].pc.TakeTail? || s.threads[t].pc.WaitLap?
    ensures Shape(Alone(s, t, n)) && t < |Alone(s, t, n).threads| && !Alone(s, t, n).threads[t].pc.Idle?
    decreases n
  {
    if n > 0 {
      PushStep(r, s, t, item);
      StepKeeps(s, t, Go);
      PushWaits(r, Step(s, t, Go), t, item, n - 1);
    }
  }

  lemma PushBegins(r: State, t: nat, item: nat)
    requires Shape(r) && AllIdle(r) && t < |r.threads|
    ensures Pushes(r, Step(r, t, Push(item)), t, item) && Step(r, t, Push(item)).threads[t].pc.TakeTail?
  {}

  /** place, begun when nobody is inside and met by nobody, ends exactly if all
      positions of earlier laps in its granule were popped; then its item is the
      last in the queue, ready, and all else is as it was. */
  lemma PushEndsWithRoom(s: State, turns: seq<Turn>, capShift: nat, granuleShift: nat, reclaim: bool, t: nat, item: nat)
    requires Initial(s, capShift, granuleShift, reclaim) && AllIdle(Run(s, turns)) && t < |Run(s, turns).threads|
    ensures var r, begun := Run(s, turns), turns + [Turn(t, Push(item))];
      && |r.phases| == r.tail
      && ((exists n: nat :: IsPushed(r, Run(s, begun + Turns(t, n)), t, item)) <==> HasRoom(r, r.tail))
      && (!HasRoom(r, r.tail) ==> forall n: nat :: !IsIdle(Run(s, begun + Turns(t, n)), t))
  {
    var r, begun := Run(s, turns), turns + [Turn(t, Push(item))];
    RunBegins(s, turns, capShift, granuleShift, reclaim, t, Push(item));
    PushBegins(r, t, item);
    RoomIsCurrent(r);
    if HasRoom(r, r.tail) {
      var n := PushGoes(r, Step(r, t, Push(item)), t, item);
      RunAlone(s, begun, t, n);
      assert IsPushed(r, Run(s, begun + Turns(t, n)), t, item);
    } else {
      forall n: nat ensures !IsIdle(Run(s, begun + Turns(t, n)), t) && !IsPushed(r, Run(s, begun + Turns(t, n)), t, item) {
        PushWaits(r, Step(r, t, Push(item)), t, item, n);
        RunAlone(s, begun, t, n);
      }
    }
  }

  predicate IsIdle(s: State, t: nat) { t < |s.threads| && s.threads[t].pc.Idle? }

  // --- which items ----------------------------------------------------------

  /** The item of the last push the thread began. */
  ghost function LastPushed(s: State, turns: seq<Turn>, t: nat): nat {
    if turns == [] then 0
    else
      var init, last := turns[..|turns| - 1], turns[|turns| - 1];
      if last.thread == t && last.choice.Push? && IsIdle(Run(s, init), t) then last.choice.item else LastPushed(s, init, t)
  }

  /** The items of the pushes, in the order in which they got their places. */
  ghost function PushedItems(s: State, turns: seq<Turn>): seq<nat> {
    if turns == [] then []
    else
      var init, last := turns[..|turns| - 1], turns[|turns| - 1];
      PushedItems(s, init) + if Run(s, turns).tail > Run(s, init).tail then [LastPushed(s, init, last.thread)] else []
  }

  predicate InPush(pc: Pc) { pc.TakeTail? || pc.WaitLap? || pc.Build? }

  /** A thread that has still to place or construct an item has that of its push. */
  ghost predicate HasItsItem(s: State, turns: seq<Turn>, t: nat)
    requires t < |Run(s, turns).threads|
  {
    InPush(Run(s, turns).threads[t].pc) ==> Run(s, turns).threads[t].item == LastPushed(s, turns, t)
  }

  ghost predicate OnlyThread(s: State, u: nat, s': State) {
    |s'.threads| == |s.threads| && forall t | 0 <= t < |s.threads| && t != u :: s'.threads[t] == s.threads[t]
  }

  lemma FirstStepItem(s: State, u: nat, c: Choice)
    requires Shape(s) && u < |s.threads| && (s.threads[u].pc.Idle? || InPush(s.threads[u].pc) || s.threads[u].pc.Publish?)
    ensures OnlyThread(s, u, Step(s, u, c))
    ensures var l, l' := s.threads[u], Step(s, u, c).threads[u];
      InPush(l'.pc) ==> if l.pc.Idle? then c.Push? && l'.item == c.item else InPush(l.pc) && l'.item == l.item
  {}

  lemma PopStepItem(s: State, u: nat, c: Choice)
    requires Shape(s) && u < |s.threads| && (InPop(s.threads[u].pc) || s.threads[u].pc.Move?)
    ensures OnlyThread(s, u, Step(s, u, c)) && !InPush(Step(s, u, c).threads[u].pc)
  {}

  lemma ReleaseStepItem(s: State, u: nat, c: Choice)
    requires Shape(s) && u < |s.threads| && InRelease(s.threads[u].pc)
    ensures OnlyThread(s, u, Step(s, u, c)) && !InPush(Step(s, u, c).threads[u].pc)
  {}

  lemma StepKeepsItem(s: State, u: nat, c: Choice)
    requires Shape(s) && u < |s.threads|
    ensures OnlyThread(s, u, Step(s, u, c))
    ensures var l, l' := s.threads[u], Step(s, u, c).threads[u];
      InPush(l'.pc) ==> if l.pc.Idle? then c.Push? && l'.item == c.item else InPush(l.pc) && l'.item == l.item
  {
    var pc := s.threads[u].pc;
    if InPop(pc) || pc.Move? {
      PopStepItem(s, u, c);
    } else if InRelease(pc) {
      ReleaseStepItem(s, u, c);
    } else {
      FirstStepItem(s, u, c);
    }
  }

  lemma StepKeepsItems(s: State, u: nat, c: Choice)
    requires Shape(s) && u < |s.threads|
    ensures var s' := Step(s, u, c); var l := s.threads[u];
      && s.tail <= s'.tail && (s'.tail > s.tail ==> l.pc.TakeTail?)
      && s'.items == s.items + if s'.tail > s.tail then [l.item] else []
  {}

  lemma LastOfRun(s: State, turns: seq<Turn>, capShift: nat, granuleShift: nat, reclaim: bool)
    requires Initial(s, capShift, granuleShift, reclaim) && turns != []
    ensures var before, last := Run(s, turns[..|turns| - 1]), turns[|turns| - 1];
      && Shape(before) && |before.threads| == |s.threads|
      && Run(s, turns) == (if last.thread < |s.threads| then Step(before, last.thread, last.choice) else before)
  {
    RunInv(s, turns[..|turns| - 1], capShift, granuleShift, reclaim);
    ThreadsStay(s, turns[..|turns| - 1]);
  }

  lemma {:induction false} ThreadsStay(s: State, turns: seq<Turn>)
    ensures |Run(s, turns).threads| == |s.threads|
  {
    if turns != [] {
      var before, last := Run(s, turns[..|turns| - 1]), turns[|turns| - 1];
      ThreadsStay(s, turns[..|turns| - 1]);
      if Shape(before) && last.thread < |before.threads| {
        StepKeepsItem(before, last.thread, last.choice);
      }
    }
  }

  lemma {:induction false} ThreadsHaveTheirItems(s: State, turns: seq<Turn>, capShift: nat, granuleShift: nat, reclaim: bool, t: nat)
    requires Initial(s, capShift, granuleShift, reclaim) && t < |Run(s, turns).threads|
    ensures HasItsItem(s, turns, t)
  {
    if turns != [] {
      var init, last := turns[..|turns| - 1], turns[|turns| - 1];
      LastOfRun(s, turns, capShift, granuleShift, reclaim);
      ThreadsStay(s, turns);
      ThreadsHaveTheirItems(s, init, capShift, granuleShift, reclaim, t);
      if last.thread < |s.threads| {
        StepKeepsItem(Run(s, init), last.thread, last.choice);
      }
    }
  }

  /** In every interleaving: the items in the queue are those of the pushes that
      got a place, in the order in which they did, each what its push was given. */
  lemma {:induction false} ItemsAreThosePushed(s: State, turns: seq<Turn>, capShift: nat, granuleShift: nat, reclaim: bool)
    requires Initial(s, capShift, granuleShift, reclaim)
    ensures Run(s, turns).items == PushedItems(s, turns)
  {
    if turns != [] {
      var init, last := turns[..|turns| - 1], turns[|turns| - 1];
      LastOfRun(s, turns, capShift, granuleShift, reclaim);
      ItemsAreThosePushed(s, init, capShift, granuleShift, reclaim);
      if last.thread < |s.threads| {
        ThreadsHaveTheirItems(s, init, capShift, granuleShift, reclaim, last.thread);
        StepKeepsItems(Run(s, init), last.thread, last.choice);
      }
    }
  }
}
