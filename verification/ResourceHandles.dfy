/**
 No handle of a resource is lost or comes from nowhere, whatever operations meet,
 and no wait ends before the load is over.
 */
module ResourceHandles {
  import opened Counting
  import opened ResourceEntry
  import opened ResourceInvariant
  import opened ResourceRuns
  import opened ResourceOutcomes

  /** The handles a thread is about to give. */
  function Owed(l: Thread): nat {
    match l.pc
    case CopyAdd => 2
    case FindAdd => 1 case FindTake => 1 case CountTask => 1 case UnparkStart => 1 case PushTask => 1 case Unpark => 1
    case WaitClaim => 1 case WaitLook => 1
    case RunCount => Bool(!l.how.Task?) case RunStore => Bool(!l.how.Task?)
    case RunGive => Bool(!l.how.Task?) case RunFree => Bool(!l.how.Task?)
    case ForceClaim => 1 case ForceFree => 1 case ForceCount => 1 case ForceFill => 1 case ForceGive => 1 case ForceReset => 1
    case DirectFill => 1 case MakeRead => 1
    case _ => 0
  }

  function OwedWeight(e: nat): Thread -> nat { (l: Thread) => if l.entry == e then Owed(l) else 0 }

  /** What a turn that begins an operation adds to the handles of an entry there is. */
  function Gain(c: Choice, e: nat): int {
    if c.Copy? && c.e == e then 1 else if c.Find? && c.e == e then 1 else if c.Drop? && c.e == e then -1 else 0
  }

  /** The turn begins an operation. */
  predicate Begins(s: State, turn: Turn) {
    && turn.thread < |s.threads| && s.threads[turn.thread].pc.Idle?
    && !Step(s, turn.thread, turn.choice).threads[turn.thread].pc.Idle?
  }

  /** The handles that were asked for, less those dropped. */
  ghost function Asked(s: State, turns: seq<Turn>, e: nat): int {
    if turns == [] then 0
    else
      var init, last := turns[..|turns| - 1], turns[|turns| - 1];
      Asked(s, init, e) + GainOf(Run(s, init), last, e)
  }

  function GainOf(s: State, turn: Turn, e: nat): int {
    if !Begins(s, turn) then 0 else if Makes(turn.choice) then Bool(e == |s.entries|) else Gain(turn.choice, e)
  }

  // --- steps ----------------------------------------------------------------

  /** Only the tasks of the lane come to the claim of a task. */
  predicate HowOk(l: Thread) {
    && (l.pc.TaskClaim? || l.pc.TaskPark? ==> l.how.Task?)
    && (l.pc.FindAdd? || l.pc.FindTake? || l.pc.Unpark? || l.pc.WaitClaim? || l.pc.WaitLook? || l.pc.ForceClaim? ==>
          !l.how.Task?)
  }

  lemma FindOwes(en: Entry, l: Thread, c: Choice)
    requires HowOk(l) && (l.pc.CopyAdd? || l.pc.FindAdd? || l.pc.FindTake?)
    ensures var (en', l') := FindStep(en, l); HowOk(l') && en'.handles + Owed(l') == en.handles + Owed(l)
  {}

  lemma StartOwes(en: Entry, l: Thread, c: Choice)
    requires HowOk(l) && (l.pc.CountTask? || l.pc.UnparkStart? || l.pc.PushTask? || l.pc.Unpark?)
    ensures var (en', l') := FindStep(en, l); HowOk(l') && en'.handles + Owed(l') == en.handles + Owed(l)
  {}

  lemma WaitOwes(en: Entry, l: Thread, c: Choice)
    requires HowOk(l) && (l.pc.WaitClaim? || l.pc.WaitLook?)
    ensures var (en', l') := WaitStep(en, l, c); HowOk(l') && en'.handles + Owed(l') == en.handles + Owed(l)
  {}

  lemma RunOwes(en: Entry, l: Thread, c: Choice)
    requires l.pc.RunCount? || l.pc.RunStore? || l.pc.RunFree?
    ensures var (en', l') := WaitStep(en, l, c); HowOk(l') && en'.handles + Owed(l') == en.handles + Owed(l)
  {}

  lemma GiveOwes(en: Entry, l: Thread, c: Choice)
    requires l.pc.RunGive? && en.count > 1
    ensures var (en', l') := WaitStep(en, l, c); HowOk(l') && en'.handles + Owed(l') == en.handles + Owed(l)
  {}

  lemma TaskOwes(en: Entry, l: Thread, c: Choice)
    requires HowOk(l) && (l.pc.TaskClaim? || l.pc.TaskPark? || l.pc.DropClaim?)
    ensures var (en', l') := TaskStep(en, l, c); HowOk(l') && en'.handles + Owed(l') == en.handles + Owed(l)
  {}

  lemma ReleaseOwes(en: Entry, l: Thread, c: Choice)
    requires l.pc.Release? || l.pc.ParkRelease?
    ensures var (en', l') := TaskStep(en, l, c); HowOk(l') && en'.handles + Owed(l') == en.handles + Owed(l)
  {}

  lemma FailOwes(en: Entry, l: Thread, c: Choice)
    requires l.pc.FailStore? || l.pc.FailFree?
    ensures var (en', l') := TaskStep(en, l, c); HowOk(l') && en'.handles + Owed(l') == en.handles + Owed(l)
  {}

  lemma ForceOwes(en: Entry, l: Thread, c: Choice)
    requires HowOk(l) && (l.pc.ForceClaim? || l.pc.ForceFree? || l.pc.ForceCount?)
    ensures var (en', l') := ForceStep(en, l, c); HowOk(l') && en'.handles + Owed(l') == en.handles + Owed(l)
  {}

  lemma FillOwes(en: Entry, l: Thread, c: Choice)
    requires HowOk(l) && (l.pc.ForceFill? || l.pc.ForceGive? || l.pc.ForceReset?)
    ensures var (en', l') := ForceStep(en, l, c); HowOk(l') && en'.handles + Owed(l') == en.handles + Owed(l)
  {}

  lemma ReadOwes(en: Entry, l: Thread, c: Choice)
    requires HowOk(l) && (l.pc.DirectFill? || l.pc.MakeRead? || l.pc.ReadPending?)
    ensures var (en', l') := ReadStep(en, l, c); HowOk(l') && en'.handles + Owed(l') == en.handles + Owed(l)
  {}

  lemma ReadEndOwes(en: Entry, l: Thread, c: Choice)
    requires HowOk(l) && (l.pc.ReadUnpark? || l.pc.ReadPush? || l.pc.ReadFail?)
    ensures var (en', l') := ReadStep(en, l, c); HowOk(l') && en'.handles + Owed(l') == en.handles + Owed(l)
  {}

  lemma BeginOwes(en: Entry, l: Thread, c: Choice, open: bool)
    requires l.pc.Idle?
    ensures var (en', l') := BeginStep(en, l, c, open);
      && HowOk(l') && en'.handles + Owed(l') == en.handles + (if l'.pc.Idle? || !AtOne(c) then 0 else Gain(c, c.e))
  {}

  predicate AtOne(c: Choice) { c.Copy? || c.Drop? || c.Find? }

  lemma FindsOwe(en: Entry, l: Thread, c: Choice)
    requires HowOk(l) && (InFind(l.pc) || InWait(l.pc)) && (l.pc.RunGive? ==> en.count > 1)
    ensures var (en', l') := if InFind(l.pc) then FindStep(en, l) else WaitStep(en, l, c);
      HowOk(l') && en'.handles + Owed(l') == en.handles + Owed(l)
  {
    if l.pc.CopyAdd? || l.pc.FindAdd? || l.pc.FindTake? {
      FindOwes(en, l, c);
    } else if InFind(l.pc) {
      StartOwes(en, l, c);
    } else if l.pc.WaitClaim? || l.pc.WaitLook? {
      WaitOwes(en, l, c);
    } else if l.pc.RunGive? {
      GiveOwes(en, l, c);
    } else {
      RunOwes(en, l, c);
    }
  }

  lemma TasksOwe(en: Entry, l: Thread, c: Choice)
    requires HowOk(l) && (InTask(l.pc) || InForce(l.pc))
    ensures var (en', l') := if InTask(l.pc) then TaskStep(en, l, c) else ForceStep(en, l, c);
      HowOk(l') && en'.handles + Owed(l') == en.handles + Owed(l)
  {
    if l.pc.TaskClaim? || l.pc.TaskPark? || l.pc.DropClaim? {
      TaskOwes(en, l, c);
    } else if l.pc.Release? || l.pc.ParkRelease? {
      ReleaseOwes(en, l, c);
    } else if InTask(l.pc) {
      FailOwes(en, l, c);
    } else if l.pc.ForceClaim? || l.pc.ForceFree? || l.pc.ForceCount? {
      ForceOwes(en, l, c);
    } else {
      FillOwes(en, l, c);
    }
  }

  /** A step at an entry gives what was owed. */
  lemma WorkOwes(en: Entry, l: Thread, c: Choice, open: bool)
    requires !l.pc.Idle? && !InList(l.pc) && HowOk(l) && (l.pc.RunGive? ==> en.count > 1)
    ensures var (en', l') := WordStep(en, l, c, open); HowOk(l') && en'.handles + Owed(l') == en.handles + Owed(l)
  {
    if InFind(l.pc) || InWait(l.pc) {
      FindsOwe(en, l, c);
    } else if InTask(l.pc) || InForce(l.pc) {
      TasksOwe(en, l, c);
    } else if l.pc.DirectFill? || l.pc.MakeRead? || l.pc.ReadPending? {
      ReadOwes(en, l, c);
    } else {
      ReadEndOwes(en, l, c);
    }
  }

  ghost predicate AllHow(s: State) { forall t | 0 <= t < |s.threads| :: HowOk(s.threads[t]) }

  /** The handles of an entry, given and still owed. */
  function Total(s: State, e: nat): nat { (if e < |s.entries| then s.entries[e].handles else 0) + Sum(OwedWeight(e), s.threads) }

  /** One entry and one thread changed. */
  lemma TotalChanges(s: State, t: nat, s': State, k: nat, en: Entry, l: Thread, e: nat, gain: int)
    requires t < |s.threads| && s'.threads == s.threads[t := l]
    requires k < |s.entries| && s'.entries == s.entries[k := en]
    requires (Owed(s.threads[t]) == 0 || s.threads[t].entry == k) && (Owed(l) == 0 || l.entry == k)
    requires en.handles + Owed(l) == s.entries[k].handles + Owed(s.threads[t]) + gain
    ensures Total(s', e) == Total(s, e) + if e == k then gain else 0
  {
    SumUpdate(OwedWeight(e), s.threads, t, l);
  }

  lemma RunGiveCounts(s: State, t: nat)
    requires t < |s.threads| && Inv(s) && s.threads[t].entry < |s.entries|
    ensures s.threads[t].pc.RunGive? ==> s.entries[s.threads[t].entry].count > 1
  {
    var e := s.threads[t].entry;
    assert WordsAt(s.entries[e], e, s.threads);
    SumAtLeast(OwnWeight(e), s.threads, t);
  }

  lemma WordTotal(s: State, t: nat, c: Choice, e: nat)
    requires t < |s.threads| && Inv(s) && AllHow(s) && !InList(s.threads[t].pc) && At(s.threads[t], c) < |s.entries|
    requires !(s.threads[t].pc.Idle? && (c.Collect? || Makes(c)))
    ensures AllHow(Step(s, t, c)) && Total(Step(s, t, c), e) == Total(s, e) + GainOf(s, Turn(t, c), e)
  {
    var l, k := s.threads[t], At(s.threads[t], c);
    var open := Open(s);
    var s' := Step(s, t, c);
    WordStepAt(s.entries[k], l, c, open);
    if l.pc.Idle? {
      BeginOwes(s.entries[k], l, c, open);
      TotalChanges(s, t, s', k, s'.entries[k], s'.threads[t], e, if s'.threads[t].pc.Idle? || !AtOne(c) then 0 else Gain(c, k));
    } else {
      RunGiveCounts(s, t);
      WorkOwes(s.entries[k], l, c, open);
      TotalChanges(s, t, s', k, s'.entries[k], s'.threads[t], e, 0);
    }
  }

  /** A step at a list gives nobody a handle. */
  ghost predicate SameHandles(s: State, t: nat, s': State, l: Thread) {
    && t < |s.threads| && s'.threads == s.threads[t := l] && (l.pc.Idle? || InList(l.pc))
    && |s'.entries| == |s.entries| && forall e | 0 <= e < |s.entries| :: s'.entries[e].handles == s.entries[e].handles
  }

  lemma PushOwes(s: State, t: nat, c: Choice, open: bool)
    requires t < |s.threads| && InList(s.threads[t].pc) && !Locked(s.threads[t].pc) && !s.threads[t].pc.CollectFree?
    ensures var s' := PushStep(s, t, c, open); |s'.threads| == |s.threads| && SameHandles(s, t, s', s'.threads[t])
  {}

  lemma CollectOwes(s: State, t: nat)
    requires t < |s.threads| && (Locked(s.threads[t].pc) || s.threads[t].pc.CollectFree?)
    ensures var s' := CollectStep(s, t); |s'.threads| == |s.threads| && SameHandles(s, t, s', s'.threads[t])
  {}

  lemma SameTotal(s: State, t: nat, s': State, l: Thread, e: nat)
    requires SameHandles(s, t, s', l) && InList(s.threads[t].pc)
    ensures Total(s', e) == Total(s, e)
  {
    SumUpdate(OwedWeight(e), s.threads, t, l);
    OutOwesNothing(s.threads[t]);
    OutOwesNothing(l);
  }

  lemma OutOwesNothing(l: Thread)
    requires l.pc.Idle? || InList(l.pc)
    ensures Owed(l) == 0
  {}

  lemma SameHow(s: State, t: nat, s': State, l: Thread)
    requires SameHandles(s, t, s', l) && AllHow(s)
    ensures AllHow(s')
  {
    assert HowOk(l);
  }

  lemma ListTotal(s: State, t: nat, c: Choice, e: nat)
    requires t < |s.threads| && AllHow(s) && InList(s.threads[t].pc)
    ensures AllHow(Step(s, t, c)) && Total(Step(s, t, c), e) == Total(s, e)
  {
    if Locked(s.threads[t].pc) || s.threads[t].pc.CollectFree? {
      CollectOwes(s, t);
      SameHow(s, t, CollectStep(s, t), CollectStep(s, t).threads[t]);
      SameTotal(s, t, CollectStep(s, t), CollectStep(s, t).threads[t], e);
    } else {
      var open := StepIsPush(s, t, c);
      PushOwes(s, t, c, open);
      SameHow(s, t, PushStep(s, t, c, open), PushStep(s, t, c, open).threads[t]);
      SameTotal(s, t, PushStep(s, t, c, open), PushStep(s, t, c, open).threads[t], e);
    }
  }

  lemma CollectTotal(s: State, t: nat, c: Choice, e: nat)
    requires t < |s.threads| && AllHow(s) && s.threads[t].pc.Idle? && c.Collect?
    ensures AllHow(Step(s, t, c)) && Total(Step(s, t, c), e) == Total(s, e) + GainOf(s, Turn(t, c), e)
  {
    SumUpdate(OwedWeight(e), s.threads, t, Step(s, t, c).threads[t]);
  }

  lemma MakeTotal(s: State, t: nat, c: Choice, e: nat)
    requires t < |s.threads| && AllHow(s) && s.threads[t].pc.Idle? && Makes(c)
    ensures AllHow(Step(s, t, c)) && Total(Step(s, t, c), e) == Total(s, e) + GainOf(s, Turn(t, c), e)
  {
    SumUpdate(OwedWeight(e), s.threads, t, Step(s, t, c).threads[t]);
  }

  lemma StepTotal(s: State, t: nat, c: Choice, e: nat)
    requires t < |s.threads| && Inv(s) && AllHow(s)
    ensures AllHow(Step(s, t, c)) && Total(Step(s, t, c), e) == Total(s, e) + GainOf(s, Turn(t, c), e)
  {
    if InList(s.threads[t].pc) {
      ListTotal(s, t, c, e);
    } else if s.threads[t].pc.Idle? && c.Collect? {
      CollectTotal(s, t, c, e);
    } else if s.threads[t].pc.Idle? && Makes(c) {
      MakeTotal(s, t, c, e);
    } else if At(s.threads[t], c) < |s.entries| {
      WordTotal(s, t, c, e);
    } else {
      assert Step(s, t, c) == s;
    }
  }

  // --- runs -----------------------------------------------------------------

  lemma {:induction false} TotalIsAsked(s: State, turns: seq<Turn>, e: nat)
    requires Initial(s)
    ensures AllHow(Run(s, turns)) && Total(Run(s, turns), e) == Asked(s, turns, e)
  {
    if turns == [] {
      SumZero(OwedWeight(e), s.threads);
    } else {
      var init, last := turns[..|turns| - 1], turns[|turns| - 1];
      TotalIsAsked(s, init, e);
      if last.thread < |Run(s, init).threads| {
        RunInv(s, init);
        StepTotal(Run(s, init), last.thread, last.choice, e);
      }
    }
  }

  /** In every interleaving: once no thread is at work, the handles of an entry
      are those that were made, copied and found less those dropped. Whatever an
      operation that gives a handle met, it gave one. */
  lemma AtRestHandlesAreCounted(s: State, turns: seq<Turn>, e: nat)
    requires Initial(s) && AllIdle(Run(s, turns)) && e < |Run(s, turns).entries|
    ensures Run(s, turns).entries[e].handles == Asked(s, turns, e)
  {
    TotalIsAsked(s, turns, e);
    SumZero(OwedWeight(e), Run(s, turns).threads);
  }

  lemma WaitStepEndsLoaded(en: Entry, l: Thread, c: Choice)
    requires InWait(l.pc) && WaitStep(en, l, c).1.pc.Idle?
    ensures !en.state.Loading? && WaitStep(en, l, c).0.state == en.state
  {}

  lemma StepEndsLoaded(r: State, t: nat, c: Choice)
    requires Threads(r) && t < |r.threads| && InWait(r.threads[t].pc) && Step(r, t, c).threads[t].pc.Idle?
    ensures r.threads[t].entry < |r.entries| && !r.entries[r.threads[t].entry].state.Loading?
  {
    assert ThreadOk(r, r.threads[t]);
    WaitStepEndsLoaded(r.entries[r.threads[t].entry], r.threads[t], c);
  }

  /** And a wait that ends finds the load over. */
  lemma WaitEndsLoaded(s: State, turns: seq<Turn>, t: nat, c: Choice)
    requires Initial(s) && t < |Run(s, turns).threads| && InWait(Run(s, turns).threads[t].pc)
    requires Run(s, turns + [Turn(t, c)]).threads[t].pc.Idle?
    ensures var r := Run(s, turns); var e := r.threads[t].entry;
      e < |r.entries| && !r.entries[e].state.Loading?
  {
    RunInv(s, turns);
    RunBegins(s, turns, t, c);
    StepEndsLoaded(Run(s, turns), t, c);
  }
}
