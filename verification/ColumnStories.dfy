/**
 What every operation on a column comes to, whoever it meets: it made or erased
 its component, used the one there, or saw why not.
 */
module ColumnStories {
  import opened ColumnPage
  import opened PageSizes
  import opened ColumnEffects
  import opened ColumnInvariant
  import opened ColumnRuns

  /** What a thread did and saw since it began its operation, if it is not in
      trim: an event of its slot, the use of a value, its bit in the mask or
      not there, its making bit with another thread, a throw. */
  datatype Story =
    | Nothing
    | Story(op: Op, page: nat, slot: nat, made: bool, erased: bool, used: bool,
            sawThere: bool, sawAbsent: bool, sawTaken: bool, thrown: bool)

  predicate MayThrow(config: Config, pc: Pc) { config.hasValue && (pc.FetchMemory? || pc.Construct?) }

  /** The story with one more step of the thread: of what it found, and of what
      happened. */
  function Told(st: Story, config: Config, pg: Page, l: Thread, c: Choice, happened: seq<Event>): Story {
    if st.Nothing? then st
    else
      var looks := l.pc.Look? || l.pc.LookHeld? || l.pc.ClearMask?;
      st.(made := st.made || happened == [Made(st.page, st.slot)],
          erased := st.erased || happened == [Erased(st.page, st.slot)],
          used := st.used || l.pc.Using?,
          sawThere := st.sawThere || (looks && st.slot in pg.mask),
          sawAbsent := st.sawAbsent || (looks && st.slot !in pg.mask),
          sawTaken := st.sawTaken || (l.pc.TakeBit? && st.slot in pg.making),
          thrown := st.thrown || (c.Throw? && MayThrow(config, l.pc)))
  }

  /** The story of an idle thread that is asked to begin. */
  function Opened(st: Story, s: State, c: Choice): Story {
    if c.Trim? then Nothing
    else if c.Begin? && c.page < |s.pages| && c.slot < PAGE_SIZE && (c.op.Modify? ==> s.config.hasValue) then
      Story(c.op, c.page, c.slot, false, false, false, false, false, false, false)
    else st
  }

  function Added(before: seq<Event>, after: seq<Event>): seq<Event> {
    if |before| <= |after| then after[|before|..] else []
  }

  function StoryOf(s: State, moves: seq<Move>, t: nat): Story {
    if moves == [] then Nothing
    else
      var init, m := moves[..|moves| - 1], moves[|moves| - 1];
      var before, after, st := Run(s, init), Run(s, moves), StoryOf(s, init, t);
      if m.thread != t || t >= |before.threads| then st
      else
        var l := before.threads[t];
        if l.pc.Idle? then Opened(st, before, m.choice)
        else if l.page < |before.pages| then
          Told(st, s.config, before.pages[l.page], l, m.choice, Added(before.log, after.log))
        else st
  }

  /** It did what it is for, or saw why not, or threw. */
  predicate IsAccounted(st: Story)
    requires st.Story?
  {
    || st.thrown
    || match st.op
       case TryEmplace => st.made || st.sawThere || st.sawTaken
       case EmplaceOr => st.made || st.used
       case Modify => st.used || st.sawAbsent
       case Erase => st.erased || st.sawAbsent
  }

  // --- what the place of a thread says of its story -------------------------

  /** Before anything happened. */
  predicate IsEarly(pc: Pc) { InEnter(pc) || pc.ClearMask? || (InStart(pc) && !pc.CountBack? && !pc.UnlockFailed?) || pc.Construct? || pc.SetMask? }

  predicate IsFor(op: Op, pc: Pc) {
    && (pc.ClearMask? ==> op.Erase?) && (pc.LookHeld? ==> !op.Erase?)
    && (pc.Using? ==> op.EmplaceOr? || op.Modify?)
    && (InStart(pc) || pc.Construct? || pc.SetMask? ==> op.TryEmplace? || op.EmplaceOr?)
    && (pc.Look? ==> !op.EmplaceOr?)
  }

  predicate Fits(st: Story, l: Thread) {
    match st
    case Nothing => l.pc.Idle? || l.trim
    case Story(_, _, _, _, _, _, _, _, _, _) =>
      && !l.trim
      && (if IsEarly(l.pc) then st.op == l.op && st.page == l.page && st.slot == l.slot && IsFor(l.op, l.pc)
          else IsAccounted(st) && (l.pc.CountBack? || l.pc.UnlockFailed? ==> st.thrown))
  }

  lemma EnterFits(config: Config, st: Story, pg: Page, l: Thread, c: Choice)
    requires Fits(st, l) && InEnter(l.pc) && !l.trim
    ensures Fits(Told(st, config, pg, l, c, Happened(pg, l)), EnterStep(config, pg, l).1)
  {}

  lemma StartFits(config: Config, st: Story, pg: Page, l: Thread, c: Choice)
    requires Fits(st, l) && InStart(l.pc) && !l.trim
    ensures Fits(Told(st, config, pg, l, c, Happened(pg, l)), StartStep(config, pg, l, c).1)
  {}

  lemma MakeFits(config: Config, st: Story, pg: Page, l: Thread, c: Choice)
    requires Fits(st, l) && InMake(l.pc) && !l.trim
    ensures Fits(Told(st, config, pg, l, c, Happened(pg, l)), MakeStep(config, pg, l, c).1)
  {}

  lemma EraseFits(config: Config, st: Story, pg: Page, l: Thread, c: Choice)
    requires Fits(st, l) && InErase(l.pc) && !l.trim
    ensures Fits(Told(st, config, pg, l, c, Happened(pg, l)), EraseStep(pg, l).1)
  {}

  predicate IsLate(pc: Pc) { !IsEarly(pc) && !pc.CountBack? && !pc.UnlockFailed? }

  lemma EmptyIsLate(config: Config, pg: Page, l: Thread)
    requires InEmpty(l.pc)
    ensures var l' := EmptyStep(config, pg, l).1; IsLate(l'.pc) && l'.trim == l.trim
  {}

  lemma ParkIsLate(pg: Page, l: Thread)
    requires InPark(l.pc)
    ensures var l' := ParkStep(pg, l).1; IsLate(l'.pc) && l'.trim == l.trim
  {}

  lemma VacateIsLate(pg: Page, l: Thread)
    requires InVacate(l.pc)
    ensures var l' := VacateStep(pg, l).1; IsLate(l'.pc) && l'.trim == l.trim
  {}

  lemma StaysAccounted(config: Config, st: Story, pg: Page, l: Thread, c: Choice, happened: seq<Event>)
    requires st.Story? && IsAccounted(st)
    ensures IsAccounted(Told(st, config, pg, l, c, happened))
  {}

  /** Later steps leave the story accounted for, and a trim is none. */
  lemma LateFits(config: Config, st: Story, pg: Page, l: Thread, c: Choice)
    requires Fits(st, l) && (InEmpty(l.pc) || InPark(l.pc) || InVacate(l.pc)) && (l.trim ==> st.Nothing?)
    ensures Fits(Told(st, config, pg, l, c, Happened(pg, l)), HeaderStep(config, pg, l, c).1)
  {
    EmptyOrNot(config, pg, l);
    if st.Story? {
      StaysAccounted(config, st, pg, l, c, Happened(pg, l));
    }
  }

  lemma EmptyOrNot(config: Config, pg: Page, l: Thread)
    requires InEmpty(l.pc) || InPark(l.pc) || InVacate(l.pc)
    ensures forall c :: var l' := HeaderStep(config, pg, l, c).1; IsLate(l'.pc) && l'.trim == l.trim
  {
    if InEmpty(l.pc) {
      EmptyIsLate(config, pg, l);
    } else if InPark(l.pc) {
      ParkIsLate(pg, l);
    } else {
      VacateIsLate(pg, l);
    }
  }

  lemma HeaderFits(config: Config, st: Story, pg: Page, l: Thread, c: Choice)
    requires Fits(st, l) && !l.pc.Idle? && !InSpares(l.pc) && (l.trim ==> st.Nothing? && (l.pc.ClearParked? || InVacate(l.pc)))
    ensures Fits(Told(st, config, pg, l, c, Happened(pg, l)), HeaderStep(config, pg, l, c).1)
  {
    if InEnter(l.pc) {
      EnterFits(config, st, pg, l, c);
    } else if InStart(l.pc) {
      StartFits(config, st, pg, l, c);
    } else if InMake(l.pc) {
      MakeFits(config, st, pg, l, c);
    } else if InErase(l.pc) {
      EraseFits(config, st, pg, l, c);
    } else {
      LateFits(config, st, pg, l, c);
    }
  }

  // --- in every run ---------------------------------------------------------

  lemma SparesFits(s: State, t: nat, st: Story, pg: Page, c: Choice)
    requires Shape(s) && t < |s.threads| && InSpares(s.threads[t].pc) && Fits(st, s.threads[t])
    ensures Fits(Told(st, s.config, pg, s.threads[t], c, []), Step(s, t, c).threads[t])
  {
    if st.Story? {
      StaysAccounted(s.config, st, pg, s.threads[t], c, []);
    }
  }

  lemma IdleFits(s: State, t: nat, st: Story, c: Choice)
    requires Shape(s) && t < |s.threads| && s.threads[t].pc.Idle? && Fits(st, s.threads[t]) && !s.threads[t].trim
    ensures Fits(Opened(st, s, c), Step(s, t, c).threads[t])
  {}

  lemma StepFits(s: State, t: nat, st: Story, c: Choice)
    requires Inv(s) && t < |s.threads| && Fits(st, s.threads[t])
    ensures var l, s' := s.threads[t], Step(s, t, c);
      l.page < |s.pages| &&
      Fits(if l.pc.Idle? then Opened(st, s, c) else Told(st, s.config, s.pages[l.page], l, c, Added(s.log, s'.log)), s'.threads[t])
  {
    var l, s' := s.threads[t], Step(s, t, c);
    assert LocalOk(s.config, l);
    if l.pc.Idle? {
      IdleFits(s, t, st, c);
    } else if InSpares(l.pc) {
      assert Added(s.log, s'.log) == [];
      SparesFits(s, t, st, s.pages[l.page], c);
    } else {
      assert Added(s.log, s'.log) == Happened(s.pages[l.page], l);
      HeaderFits(s.config, st, s.pages[l.page], l, c);
    }
  }

  lemma OtherStays(s: State, u: nat, c: Choice, t: nat)
    requires Shape(s) && u < |s.threads| && t < |s.threads|
    ensures var s' := Step(s, u, c);
      && |s'.threads| == |s.threads| && s'.config == s.config && (u != t ==> s'.threads[t] == s.threads[t])
  {}

  lemma {:induction false} ThreadsStay(s: State, moves: seq<Move>)
    requires Initial(s)
    ensures |Run(s, moves).threads| == |s.threads| && Run(s, moves).config == s.config
  {
    if moves != [] {
      var init, m := moves[..|moves| - 1], moves[|moves| - 1];
      ThreadsStay(s, init);
      if Shape(Run(s, init)) && m.thread < |s.threads| {
        OtherStays(Run(s, init), m.thread, m.choice, m.thread);
      }
    }
  }

  lemma {:induction false} RunFits(s: State, moves: seq<Move>, t: nat)
    requires Initial(s) && t < |s.threads|
    ensures t < |Run(s, moves).threads| && Fits(StoryOf(s, moves, t), Run(s, moves).threads[t])
  {
    if moves != [] {
      var init, m := moves[..|moves| - 1], moves[|moves| - 1];
      ThreadsStay(s, init);
      RunInv(s, init);
      RunFits(s, init, t);
      if m.thread == t {
        StepFits(Run(s, init), t, StoryOf(s, init, t), m.choice);
      } else if m.thread < |s.threads| {
        OtherStays(Run(s, init), m.thread, m.choice, t);
      }
    }
  }

  /** In every interleaving: an operation that ended without a throw made or
      erased its component, or used the one there, or at some step saw why not:
      the component there (tryEmplace), not there (modify, erase), or its making
      bit taken (tryEmplace). */
  lemma EveryOperationIsAccounted(s: State, moves: seq<Move>, t: nat)
    requires Initial(s) && t < |Run(s, moves).threads| && Run(s, moves).threads[t].pc.Idle?
    requires StoryOf(s, moves, t).Story? && !StoryOf(s, moves, t).thrown
    ensures var st := StoryOf(s, moves, t);
      match st.op
      case TryEmplace => st.made || st.sawThere || st.sawTaken
      case EmplaceOr => st.made || st.used
      case Modify => st.used || st.sawAbsent
      case Erase => st.erased || st.sawAbsent
  {
    ThreadsStay(s, moves);
    RunFits(s, moves, t);
  }
}
