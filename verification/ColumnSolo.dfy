/**
 What comes of an operation on a column that nobody meets: it ends, and leaves
 the component there or gone, and everything else as it was.
 */
module ColumnSolo {
  import opened Counting
  import opened ColumnPage
  import opened PageSizes
  import opened ColumnEffects
  import opened ColumnInvariant
  import opened ColumnRuns

  /** n steps of the thread, none of which throws. */
  function Alone(s: State, t: nat, n: nat): State
    decreases n
  {
    if n == 0 || !Shape(s) || t >= |s.threads| then s else Alone(Step(s, t, Go), t, n - 1)
  }

  /** The components of the page after the operation. */
  function Outcome(op: Op, mask: set<nat>, slot: nat): set<nat> {
    match op
    case TryEmplace => mask + {slot}
    case EmplaceOr => mask + {slot}
    case Modify => mask
    case Erase => mask - {slot}
  }

  /** What happened to the slot. */
  function EventOf(op: Op, mask: set<nat>, p: nat, slot: nat): seq<Event> {
    if (op.TryEmplace? || op.EmplaceOr?) && slot !in mask then [Made(p, slot)]
    else if op.Erase? && slot in mask then [Erased(p, slot)]
    else []
  }

  // --- how far it is --------------------------------------------------------

  /** The way of an add after the look that found nothing. */
  predicate Makes(pc: Pc) {
    pc.CountIn? || pc.LookStarted? || pc.LockStart? || pc.LookAgain? || pc.FetchMemory? || pc.MarkStarted? ||
    pc.UnlockStarted? || pc.Construct? || pc.SetMask?
  }

  /** The way after the bit of the mask was set or taken away. */
  predicate Marked(pc: Pc) { pc.LookSummary? || pc.SetSummary? }
  predicate Ends(pc: Pc) { pc.EndValue? || pc.GiveBitErased? }
  predicate Leaves(pc: Pc) { InEmpty(pc) || InPark(pc) || InVacate(pc) || pc.TakePlace? || pc.SwapPlace? }

  predicate IsOver(pc: Pc) { Marked(pc) || Ends(pc) || Leaves(pc) || pc.GiveBit? || pc.Idle? }

  /** Where a thread in the operation may be. */
  predicate IsOnItsWay(op: Op, pc: Pc, isThere: bool) {
    || pc.Idle? || pc.GiveBit?
    || pc.TakeBit? || (pc.Look? && !op.EmplaceOr?) || (pc.LookHeld? && !op.Erase?)
    || (pc.Using? && (op.EmplaceOr? || op.Modify?) && isThere)
    || ((Makes(pc) || Marked(pc)) && (op.TryEmplace? || op.EmplaceOr?) && !isThere)
    || (pc.ClearMask? && op.Erase?)
    || ((Ends(pc) || Leaves(pc)) && op.Erase? && isThere)
  }

  /** More than the steps that are left. */
  function Rank(l: Thread): nat {
    match l.pc
    case Idle => 0
    case GiveBit => 1
    case Using => 2 case SetSummary => 2 case LookSummary => 3 case SetMask => 4 case Construct => 5
    case UnlockStarted => 6 case MarkStarted => 7 case FetchMemory => 8 case LookAgain => 9 case LockStart => 10
    case LookStarted => 11 case CountIn => 12 case LookHeld => 13
    case UnlockVacated => 2 case GiveBack => 3 case Keep => 3
    case ReadBits => 4 + Left(l.word)
    case ReadCount => 100 case ClearStarted => 101 case LockVacate => 102 case ClearParked => 103
    case SwapPlace => 104 case TakePlace => 105 case SetParked => 106 case LookParked => 107
    case LookWord => 110 + 2 * Left(l.word)
    case RebuildWord => 109 + 2 * Left(l.word)
    case LookCount => 300 case ClearSummary => 301 case CountOut => 302 case GiveBitErased => 303 case EndValue => 304
    case ClearMask => 305
    case TakeBit => 306
    case Look => 307
    case _ => 0
  }

  function Left(word: nat): nat { if word < PAGE_WORDS then PAGE_WORDS - word else 0 }

  ghost predicate OthersIdle(s: State, t: nat) { forall u | 0 <= u < |s.threads| && u != t :: s.threads[u].pc.Idle? }

  /** Where a thread alone in the operation stands, and what it did to its page so far. */
  ghost predicate Stands(s0: State, s: State, l: Thread, op: Op, p: nat, slot: nat)
    requires p < |s.pages| == |s0.pages|
  {
    var mask := s0.pages[p].mask;
    && l.op == op && !l.trim && IsOnItsWay(op, l.pc, slot in mask)
    && (l.pc.Idle? || (l.slot == slot && (l.page == p || l.pc.ClearParked? || InVacate(l.pc))))
    && (Leaves(l.pc) ==> l.bit.Free?) && (l.pc.SwapPlace? ==> l.place < |s.spares|)
    && s.pages[p].mask == (if IsOver(l.pc) then Outcome(op, mask, slot) else mask)
    && s.log == s0.log + (if IsOver(l.pc) then EventOf(op, mask, p, slot) else [])
  }

  /** All else is as it was. */
  ghost predicate Apart(s0: State, s: State, t: nat, p: nat) {
    && t < |s.threads| == |s0.threads| && OthersIdle(s, t)
    && s.config == s0.config && |s.pages| == |s0.pages| && p < |s.pages|
    && (forall q | 0 <= q < |s.pages| && q != p :: s.pages[q].mask == s0.pages[q].mask)
  }

  /** The operation under way, from a state s0 in which nobody was inside. */
  ghost predicate Going(s0: State, s: State, t: nat, op: Op, p: nat, slot: nat) {
    Inv(s) && Apart(s0, s, t, p) && Stands(s0, s, s.threads[t], op, p, slot)
  }

  /** Alone, a thread finds no making bit taken and no page busy. */
  lemma NothingIsHeld(s: State, t: nat)
    requires Inv(s) && t < |s.threads| && OthersIdle(s, t)
    ensures var l := s.threads[t];
      && l.page < |s.pages| && HeaderOk(s.config, s.pages[l.page], l)
      && (l.pc.TakeBit? ==> l.slot !in s.pages[l.page].making)
      && (!InBusy(l.pc) ==> !s.pages[l.page].busy)
  {
    var l := s.threads[t];
    forall u | 0 <= u < |s.threads| && u != t ensures s.threads[u].bit.Free? && !InBusy(s.threads[u].pc) {
      assert LocalOk(s.config, s.threads[u]);
    }
    HeaderIsOk(s, t);
  }

  // --- a step at the page ---------------------------------------------------

  ghost predicate CanGo(pg: Page, l: Thread, op: Op, isThere: bool) {
    && l.op == op && !l.trim && !l.pc.Idle? && IsOnItsWay(op, l.pc, isThere)
    && (l.pc.ClearMask? && l.bit.Held? ==> l.bit.page == l.page) && (l.pc.RebuildWord? ==> l.word < PAGE_WORDS)
    && (l.pc.TakeBit? ==> l.slot !in pg.making) && (!InBusy(l.pc) ==> !pg.busy) && (Leaves(l.pc) ==> l.bit.Free?)
    && (!IsOver(l.pc) ==> isThere == (l.slot in pg.mask))
  }

  /** The thread gets on. */
  ghost predicate GetsOn(l: Thread, op: Op, isThere: bool, l': Thread) {
    && l'.op == op && !l'.trim && l'.slot == l.slot && l'.page == l.page && IsOnItsWay(op, l'.pc, isThere)
    && (Leaves(l'.pc) ==> l'.bit.Free?) && !l'.pc.SwapPlace? && Rank(l') < Rank(l)
  }

  /** The step that makes the operation over has its outcome. */
  ghost predicate HasOutcome(pg: Page, l: Thread, op: Op, pg': Page, l': Thread) {
    && (IsOver(l.pc) ==> IsOver(l'.pc) && pg'.mask == pg.mask && Happened(pg, l) == [])
    && (!IsOver(l.pc) ==>
          && pg'.mask == (if IsOver(l'.pc) then Outcome(op, pg.mask, l.slot) else pg.mask)
          && Happened(pg, l) == (if IsOver(l'.pc) then EventOf(op, pg.mask, l.page, l.slot) else []))
  }

  lemma LookGetsOn(config: Config, pg: Page, l: Thread, op: Op, isThere: bool)
    requires CanGo(pg, l, op, isThere) && (l.pc.Look? || l.pc.LookHeld?)
    ensures GetsOn(l, op, isThere, EnterStep(config, pg, l).1)
  {}

  lemma BitGetsOn(config: Config, pg: Page, l: Thread, op: Op, isThere: bool)
    requires CanGo(pg, l, op, isThere) && (l.pc.TakeBit? || l.pc.Using?)
    ensures GetsOn(l, op, isThere, EnterStep(config, pg, l).1)
  {}

  lemma EnterGetsOn(config: Config, pg: Page, l: Thread, op: Op, isThere: bool)
    requires CanGo(pg, l, op, isThere) && InEnter(l.pc)
    ensures GetsOn(l, op, isThere, EnterStep(config, pg, l).1)
  {
    if l.pc.Look? || l.pc.LookHeld? {
      LookGetsOn(config, pg, l, op, isThere);
    } else {
      BitGetsOn(config, pg, l, op, isThere);
    }
  }

  lemma EnterHasOutcome(config: Config, pg: Page, l: Thread, op: Op, isThere: bool)
    requires CanGo(pg, l, op, isThere) && InEnter(l.pc)
    ensures HasOutcome(pg, l, op, EnterStep(config, pg, l).0, EnterStep(config, pg, l).1)
  {}

  /** occupy and start, up to the construction. */
  lemma StartNext(config: Config, pg: Page, l: Thread)
    requires InStart(l.pc) && Makes(l.pc) && !(l.pc.LockStart? && pg.busy)
    ensures var (pg', l') := StartStep(config, pg, l, Go);
      Makes(l'.pc) && l' == l.(pc := l'.pc) && Rank(l') < Rank(l) && pg'.mask == pg.mask && Happened(pg, l) == []
  {}

  lemma StartGetsOn(config: Config, pg: Page, l: Thread, op: Op, isThere: bool)
    requires CanGo(pg, l, op, isThere) && InStart(l.pc)
    ensures GetsOn(l, op, isThere, StartStep(config, pg, l, Go).1)
    ensures HasOutcome(pg, l, op, StartStep(config, pg, l, Go).0, StartStep(config, pg, l, Go).1)
  {
    assert Makes(l.pc);
    StartNext(config, pg, l);
  }

  lemma MakeGetsOn(config: Config, pg: Page, l: Thread, op: Op, isThere: bool)
    requires CanGo(pg, l, op, isThere) && InMake(l.pc)
    ensures GetsOn(l, op, isThere, MakeStep(config, pg, l, Go).1)
  {}

  lemma MakeHasOutcome(config: Config, pg: Page, l: Thread, op: Op, isThere: bool)
    requires CanGo(pg, l, op, isThere) && InMake(l.pc)
    ensures HasOutcome(pg, l, op, MakeStep(config, pg, l, Go).0, MakeStep(config, pg, l, Go).1)
  {}

  lemma EraseGetsOn(config: Config, pg: Page, l: Thread, op: Op, isThere: bool)
    requires CanGo(pg, l, op, isThere) && InErase(l.pc)
    ensures GetsOn(l, op, isThere, EraseStep(pg, l).1)
  {}

  lemma EraseHasOutcome(config: Config, pg: Page, l: Thread, op: Op, isThere: bool)
    requires CanGo(pg, l, op, isThere) && InErase(l.pc)
    ensures HasOutcome(pg, l, op, EraseStep(pg, l).0, EraseStep(pg, l).1)
  {}

  lemma EmptyGetsOn(config: Config, pg: Page, l: Thread, op: Op, isThere: bool)
    requires CanGo(pg, l, op, isThere) && InEmpty(l.pc)
    ensures GetsOn(l, op, isThere, EmptyStep(config, pg, l).1)
  {}

  lemma EmptyHasOutcome(config: Config, pg: Page, l: Thread, op: Op, isThere: bool)
    requires CanGo(pg, l, op, isThere) && InEmpty(l.pc)
    ensures HasOutcome(pg, l, op, EmptyStep(config, pg, l).0, EmptyStep(config, pg, l).1)
  {}

  lemma ParkGetsOn(config: Config, pg: Page, l: Thread, op: Op, isThere: bool)
    requires CanGo(pg, l, op, isThere) && InPark(l.pc)
    ensures GetsOn(l, op, isThere, ParkStep(pg, l).1)
  {}

  lemma ParkHasOutcome(config: Config, pg: Page, l: Thread, op: Op, isThere: bool)
    requires CanGo(pg, l, op, isThere) && InPark(l.pc)
    ensures HasOutcome(pg, l, op, ParkStep(pg, l).0, ParkStep(pg, l).1)
  {}

  lemma VacateGetsOn(config: Config, pg: Page, l: Thread, op: Op, isThere: bool)
    requires CanGo(pg, l, op, isThere) && InVacate(l.pc)
    ensures GetsOn(l, op, isThere, VacateStep(pg, l).1)
  {}

  lemma VacateHasOutcome(config: Config, pg: Page, l: Thread, op: Op, isThere: bool)
    requires CanGo(pg, l, op, isThere) && InVacate(l.pc)
    ensures HasOutcome(pg, l, op, VacateStep(pg, l).0, VacateStep(pg, l).1)
  {}

  lemma HeaderGoesOn(config: Config, pg: Page, l: Thread, op: Op, isThere: bool)
    requires CanGo(pg, l, op, isThere) && !InSpares(l.pc)
    ensures var (pg', l') := HeaderStep(config, pg, l, Go); GetsOn(l, op, isThere, l') && HasOutcome(pg, l, op, pg', l')
  {
    if InEnter(l.pc) {
      EnterGetsOn(config, pg, l, op, isThere);
      EnterHasOutcome(config, pg, l, op, isThere);
    } else if InStart(l.pc) {
      StartGetsOn(config, pg, l, op, isThere);
    } else if InMake(l.pc) {
      MakeGetsOn(config, pg, l, op, isThere);
      MakeHasOutcome(config, pg, l, op, isThere);
    } else if InErase(l.pc) {
      EraseGetsOn(config, pg, l, op, isThere);
      EraseHasOutcome(config, pg, l, op, isThere);
    } else if InEmpty(l.pc) {
      EmptyGetsOn(config, pg, l, op, isThere);
      EmptyHasOutcome(config, pg, l, op, isThere);
    } else if InPark(l.pc) {
      ParkGetsOn(config, pg, l, op, isThere);
      ParkHasOutcome(config, pg, l, op, isThere);
    } else {
      VacateGetsOn(config, pg, l, op, isThere);
      VacateHasOutcome(config, pg, l, op, isThere);
    }
  }

  // --- a step of the operation ----------------------------------------------

  lemma StandingGoes(s0: State, s: State, t: nat, op: Op, p: nat, slot: nat)
    requires Going(s0, s, t, op, p, slot) && !s.threads[t].pc.Idle?
    ensures var l := s.threads[t]; l.page < |s.pages| && CanGo(s.pages[l.page], l, op, slot in s0.pages[p].mask)
  {
    NothingIsHeld(s, t);
  }

  /** A step at a page that gets the thread on. */
  lemma HeaderApart(s0: State, s: State, t: nat, op: Op, p: nat, slot: nat)
    requires Shape(s) && Apart(s0, s, t, p) && Stands(s0, s, s.threads[t], op, p, slot)
    requires !s.threads[t].pc.Idle? && !InSpares(s.threads[t].pc) && s.threads[t].page < |s.pages|
    requires CanGo(s.pages[s.threads[t].page], s.threads[t], op, slot in s0.pages[p].mask)
    ensures Apart(s0, Step(s, t, Go), t, p)
  {
    var l := s.threads[t];
    HeaderGoesOn(s.config, s.pages[l.page], l, op, slot in s0.pages[p].mask);
  }

  lemma HeaderStands(s0: State, s: State, t: nat, op: Op, p: nat, slot: nat)
    requires Shape(s) && Apart(s0, s, t, p) && Stands(s0, s, s.threads[t], op, p, slot)
    requires !s.threads[t].pc.Idle? && !InSpares(s.threads[t].pc) && s.threads[t].page < |s.pages|
    requires CanGo(s.pages[s.threads[t].page], s.threads[t], op, slot in s0.pages[p].mask)
    ensures var s' := Step(s, t, Go);
      Apart(s0, s', t, p) && Stands(s0, s', s'.threads[t], op, p, slot) && Rank(s'.threads[t]) < Rank(s.threads[t])
  {
    var l := s.threads[t];
    HeaderGoesOn(s.config, s.pages[l.page], l, op, slot in s0.pages[p].mask);
    HeaderApart(s0, s, t, op, p, slot);
  }

  lemma SparesStands(s0: State, s: State, t: nat, op: Op, p: nat, slot: nat)
    requires Shape(s) && Apart(s0, s, t, p) && Stands(s0, s, s.threads[t], op, p, slot)
    requires InSpares(s.threads[t].pc) && |s.spares| > 0
    ensures var s' := Step(s, t, Go);
      Apart(s0, s', t, p) && Stands(s0, s', s'.threads[t], op, p, slot) && Rank(s'.threads[t]) < Rank(s.threads[t])
  {}

  lemma KeepsGoing(s0: State, s: State, t: nat, op: Op, p: nat, slot: nat)
    requires Going(s0, s, t, op, p, slot) && !s.threads[t].pc.Idle?
    ensures Going(s0, Step(s, t, Go), t, op, p, slot) && Rank(Step(s, t, Go).threads[t]) < Rank(s.threads[t])
  {
    StandingGoes(s0, s, t, op, p, slot);
    StepKeeps(s, t, Go);
    if InSpares(s.threads[t].pc) {
      assert LocalOk(s.config, s.threads[t]);
      SparesStands(s0, s, t, op, p, slot);
    } else {
      HeaderStands(s0, s, t, op, p, slot);
    }
  }

  /** The operation is before its use of the component that is there. */
  predicate WillUse(op: Op, pc: Pc, isThere: bool) {
    (op.Modify? || op.EmplaceOr?) && isThere && (pc.Look? || pc.TakeBit? || pc.LookHeld? || pc.Using?)
  }

  lemma UseComes(s0: State, s: State, t: nat, op: Op, p: nat, slot: nat)
    requires Shape(s) && Apart(s0, s, t, p) && Stands(s0, s, s.threads[t], op, p, slot)
    requires s.threads[t].page < |s.pages| && CanGo(s.pages[s.threads[t].page], s.threads[t], op, slot in s0.pages[p].mask)
    requires WillUse(op, s.threads[t].pc, slot in s0.pages[p].mask)
    ensures s.threads[t].pc.Using? || WillUse(op, Step(s, t, Go).threads[t].pc, slot in s0.pages[p].mask)
  {}

  lemma NextOfGoing(s0: State, s: State, t: nat, op: Op, p: nat, slot: nat) returns (s': State)
    requires Going(s0, s, t, op, p, slot) && !s.threads[t].pc.Idle?
    ensures Going(s0, s', t, op, p, slot) && Rank(s'.threads[t]) < Rank(s.threads[t])
    ensures forall n: nat :: Alone(s, t, n + 1) == Alone(s', t, n)
    ensures WillUse(op, s.threads[t].pc, slot in s0.pages[p].mask) ==>
              s.threads[t].pc.Using? || WillUse(op, s'.threads[t].pc, slot in s0.pages[p].mask)
  {
    KeepsGoing(s0, s, t, op, p, slot);
    s' := Step(s, t, Go);
    StandingGoes(s0, s, t, op, p, slot);
    if WillUse(op, s.threads[t].pc, slot in s0.pages[p].mask) {
      UseComes(s0, s, t, op, p, slot);
    }
  }

  ghost predicate IsUsed(s: State, t: nat, k: nat) { t < |Alone(s, t, k).threads| && Alone(s, t, k).threads[t].pc.Using? }

  ghost predicate Over(s0: State, e: State, t: nat, op: Op, p: nat, slot: nat) {
    Apart(s0, e, t, p) && e.threads[t].pc.Idle? && Stands(s0, e, e.threads[t], op, p, slot)
  }

  lemma IdleIsOver(s0: State, s: State, t: nat, op: Op, p: nat, slot: nat)
    requires Going(s0, s, t, op, p, slot) && s.threads[t].pc.Idle?
    ensures Over(s0, Alone(s, t, 0), t, op, p, slot)
  {
    assert Alone(s, t, 0) == s;
  }

  lemma OverBefore(s0: State, s: State, s': State, t: nat, n: nat, op: Op, p: nat, slot: nat)
    requires Over(s0, Alone(s', t, n), t, op, p, slot) && Alone(s, t, n + 1) == Alone(s', t, n)
    ensures Over(s0, Alone(s, t, n + 1), t, op, p, slot)
  {}

  /** It comes to an end. */
  lemma {:induction false} GoingEnds(s0: State, s: State, t: nat, op: Op, p: nat, slot: nat) returns (n: nat)
    requires Going(s0, s, t, op, p, slot)
    ensures Over(s0, Alone(s, t, n), t, op, p, slot)
    decreases Rank(s.threads[t])
  {
    if s.threads[t].pc.Idle? {
      n := 0;
      IdleIsOver(s0, s, t, op, p, slot);
    } else {
      var s' := NextOfGoing(s0, s, t, op, p, slot);
      n := GoingEnds(s0, s', t, op, p, slot);
      OverBefore(s0, s, s', t, n, op, p, slot);
      n := n + 1;
    }
  }

  /** And passes the use of what is there. */
  lemma {:induction false} GoingUses(s0: State, s: State, t: nat, op: Op, p: nat, slot: nat) returns (k: nat)
    requires Going(s0, s, t, op, p, slot) && WillUse(op, s.threads[t].pc, slot in s0.pages[p].mask)
    ensures IsUsed(s, t, k)
    decreases Rank(s.threads[t])
  {
    if s.threads[t].pc.Using? {
      k := 0;
    } else {
      var s' := NextOfGoing(s0, s, t, op, p, slot);
      k := GoingUses(s0, s', t, op, p, slot);
      assert Alone(s, t, k + 1) == Alone(s', t, k);
      k := k + 1;
    }
  }

  // --- in a run -------------------------------------------------------------

  /** n moves of the thread, none of which throws. */
  function Moves(t: nat, n: nat): seq<Move> { seq(n, _ => Move(t, Go)) }

  lemma {:induction false} RunAlone(s: State, moves: seq<Move>, t: nat, n: nat)
    ensures Run(s, moves + Moves(t, n)) == Alone(Run(s, moves), t, n)
    decreases n
  {
    if n == 0 {
      assert moves + Moves(t, 0) == moves;
    } else {
      var next := moves + [Move(t, Go)];
      assert moves + Moves(t, n) == next + Moves(t, n - 1);
      assert next[..|next| - 1] == moves;
      RunAlone(s, next, t, n - 1);
      if !Shape(Run(s, moves)) || t >= |Run(s, moves).threads| {
        AloneStays(Run(s, moves), t, n - 1);
      }
    }
  }

  lemma AloneStays(s: State, t: nat, n: nat)
    requires !Shape(s) || t >= |s.threads| || s.threads[t].pc.Idle?
    ensures Alone(s, t, n) == s
    decreases n
  {
    if n > 0 && Shape(s) && t < |s.threads| {
      assert Step(s, t, Go) == s;
    }
  }

  /** A step that begins an operation changes nothing but its thread. */
  lemma BeginStep(s: State, t: nat, op: Op, p: nat, slot: nat)
    requires Shape(s) && t < |s.threads| && s.threads[t].pc.Idle? && p < |s.pages| && slot < PAGE_SIZE
    requires op.Modify? ==> s.config.hasValue
    ensures Step(s, t, Begin(op, p, slot)) ==
            s.(threads := s.threads[t := s.threads[t].(pc := if op.EmplaceOr? then TakeBit else Look, op := op, page := p, slot := slot)])
  {}

  lemma BegunStands(s0: State, t: nat, op: Op, p: nat, slot: nat)
    requires Shape(s0) && AllIdle(s0) && t < |s0.threads| && p < |s0.pages| && slot < PAGE_SIZE
    requires (op.Modify? ==> s0.config.hasValue) && !s0.threads[t].trim
    ensures var s := Step(s0, t, Begin(op, p, slot));
      Apart(s0, s, t, p) && Stands(s0, s, s.threads[t], op, p, slot) && WillUse(op, s.threads[t].pc, true) == (op.Modify? || op.EmplaceOr?)
  {
    BeginStep(s0, t, op, p, slot);
  }

  lemma BeginsGoing(s0: State, t: nat, op: Op, p: nat, slot: nat) returns (s: State)
    requires Inv(s0) && AllIdle(s0) && t < |s0.threads| && p < |s0.pages| && slot < PAGE_SIZE
    requires op.Modify? ==> s0.config.hasValue
    ensures s == Step(s0, t, Begin(op, p, slot)) && Going(s0, s, t, op, p, slot)
    ensures WillUse(op, s.threads[t].pc, true) == (op.Modify? || op.EmplaceOr?)
  {
    assert LocalOk(s0.config, s0.threads[t]);
    BegunStands(s0, t, op, p, slot);
    StepKeeps(s0, t, Begin(op, p, slot));
    s := Step(s0, t, Begin(op, p, slot));
  }

  /** What is left behind: nobody is inside, and only the slot of the operation
      may have changed. */
  ghost predicate IsDone(r: State, e: State, op: Op, p: nat, slot: nat)
    requires p < |r.pages|
  {
    && AllIdle(e) && |e.pages| == |r.pages| && |e.threads| == |r.threads|
    && e.pages[p].mask == Outcome(op, r.pages[p].mask, slot)
    && (forall q | 0 <= q < |r.pages| && q != p :: e.pages[q].mask == r.pages[q].mask)
    && e.log == r.log + EventOf(op, r.pages[p].mask, p, slot)
  }

  lemma OverIsDone(r: State, e: State, t: nat, op: Op, p: nat, slot: nat)
    requires Over(r, e, t, op, p, slot)
    ensures IsDone(r, e, op, p, slot) && t < |e.threads| && e.threads[t].pc.Idle?
  {}

  predicate IsAtUse(s: State, t: nat) { t < |s.threads| && s.threads[t].pc.Using? }

  lemma StaysDone(s: State, begun: seq<Move>, t: nat, n: nat, m: nat)
    requires n <= m && t < |Run(s, begun + Moves(t, n)).threads| && Run(s, begun + Moves(t, n)).threads[t].pc.Idle?
    ensures Run(s, begun + Moves(t, m)) == Run(s, begun + Moves(t, n))
  {
    assert begun + Moves(t, m) == (begun + Moves(t, n)) + Moves(t, m - n);
    RunAlone(s, begun + Moves(t, n), t, m - n);
    AloneStays(Run(s, begun + Moves(t, n)), t, m - n);
  }

  lemma RunBegins(s: State, moves: seq<Move>, t: nat, op: Op, p: nat, slot: nat)
    requires Initial(s) && t < |Run(s, moves).threads|
    ensures Shape(Run(s, moves))
    ensures Run(s, moves + [Move(t, Begin(op, p, slot))]) == Step(Run(s, moves), t, Begin(op, p, slot))
  {
    RunInv(s, moves);
    var begun := moves + [Move(t, Begin(op, p, slot))];
    assert begun[..|begun| - 1] == moves;
  }

  /** An operation that nobody meets, begun when nobody is inside, ends: the
      component is there after tryEmplace and emplaceOr and not there after
      erase, made or erased exactly if it was not so before, and all other
      components are as they were. */
  lemma OperationEnds(s: State, moves: seq<Move>, t: nat, op: Op, p: nat, slot: nat) returns (n: nat)
    requires Initial(s) && AllIdle(Run(s, moves)) && t < |Run(s, moves).threads| && p < |Run(s, moves).pages|
    requires slot < PAGE_SIZE && (op.Modify? ==> Run(s, moves).config.hasValue)
    ensures var begun := moves + [Move(t, Begin(op, p, slot))];
      forall m | n <= m :: IsDone(Run(s, moves), Run(s, begun + Moves(t, m)), op, p, slot)
  {
    var r, begun := Run(s, moves), moves + [Move(t, Begin(op, p, slot))];
    RunInv(s, moves);
    RunBegins(s, moves, t, op, p, slot);
    var b := BeginsGoing(r, t, op, p, slot);
    n := GoingEnds(r, b, t, op, p, slot);
    RunAlone(s, begun, t, n);
    OverIsDone(r, Run(s, begun + Moves(t, n)), t, op, p, slot);
    forall m | n <= m ensures IsDone(r, Run(s, begun + Moves(t, m)), op, p, slot) {
      StaysDone(s, begun, t, n, m);
    }
  }

  /** And modify, and emplaceOr of a component that is there, come to use it. */
  lemma OperationUses(s: State, moves: seq<Move>, t: nat, op: Op, p: nat, slot: nat) returns (k: nat)
    requires Initial(s) && AllIdle(Run(s, moves)) && t < |Run(s, moves).threads| && p < |Run(s, moves).pages|
    requires slot in Run(s, moves).pages[p].mask && (op.EmplaceOr? || (op.Modify? && Run(s, moves).config.hasValue))
    ensures IsAtUse(Run(s, moves + [Move(t, Begin(op, p, slot))] + Moves(t, k)), t)
  {
    var r, begun := Run(s, moves), moves + [Move(t, Begin(op, p, slot))];
    RunInv(s, moves);
    RunBegins(s, moves, t, op, p, slot);
    var b := BeginsGoing(r, t, op, p, slot);
    k := GoingUses(r, b, t, op, p, slot);
    RunAlone(s, begun, t, k);
  }
}
