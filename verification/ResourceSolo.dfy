/**
 What an operation on the entries of a resource cache comes to when nothing else
 goes on: the handles, the tasks and the load it leaves, and which entries
 collect frees.
 */
module ResourceSolo {
  import opened Counting
  import Iterations
  import opened ResourceEntry
  import opened ResourceEffects
  import opened ResourceInvariant
  import opened ResourceRuns

  // --- what it comes to -----------------------------------------------------

  /** What the loader leaves, where it is run. */
  function LoadedState(throws: bool): LoadState { if throws then Failed else Ready }

  /** The load that is left in the entry, if one is, was done. */
  function Loaded(en: Entry, throws: bool): Entry {
    if en.pending
    then en.(claimed := true, parked := false, pending := false, runs := en.runs + 1, state := LoadedState(throws))
    else en
  }

  /** forceLoad also loads again what failed. */
  function Forced(en: Entry, throws: bool): Entry {
    if en.pending then Loaded(en, throws) else if en.state.Failed? then en.(state := LoadedState(throws)) else en
  }

  /** With a handle more. */
  function Handed(en: Entry): Entry { en.(count := en.count + 1, handles := en.handles + 1) }

  /** With a count less; without one it is queued. */
  function Released(en: Entry): Entry {
    en.(count := if en.count > 0 then en.count - 1 else 0, queued := en.queued || en.count <= 1)
  }

  function Found(en: Entry, how: How, throws: bool): Entry {
    match how
    case Wait => Handed(Loaded(en, throws))
    case Force => Handed(Forced(en, throws))
    case _ =>
      if en.parked then Handed(en).(count := en.count + 2, parked := false, claimed := false, tasks := en.tasks + 1)
      else Handed(en)
  }

  /** A task that ran: a load that nobody waits for is left in the entry. */
  function Ran(en: Entry, throws: bool): Entry {
    if en.pending && en.handles == 0 then en.(claimed := true, parked := true) else Loaded(en, throws)
  }

  /** The entry after an operation on it. */
  function After(en: Entry, c: Choice, throws: bool): Entry {
    match c
    case Copy(_) => Handed(en)
    case Drop(_) => Released(en.(handles := if en.handles > 0 then en.handles - 1 else 0))
    case WaitFor(_) => Loaded(en, throws)
    case Find(_, how) => Found(en, how, throws)
    case RunTask(_) => Released(Ran(en, throws).(tasks := 0))
    case DropTask(_) => Released((if en.pending then Loaded(en, true) else en).(tasks := 0))
    case ReadDone(_, bytes) =>
      if bytes then en.(files := 0, tasks := 1, pending := true, left := true, claimed := false)
      else Released(en.(files := 0, state := Failed))
    case _ => en
  }

  /** What the operation asks for is there, and where it waits no file is read,
      which it would have to wait for. */
  predicate CanBegin(en: Entry, c: Choice) {
    match c
    case Copy(_) => en.handles > 0
    case Drop(_) => en.handles > 0
    case WaitFor(_) => en.handles > 0 && en.files == 0
    case Find(_, how) => en.mapped && !how.Task? && (how.Bind? || en.files == 0)
    case RunTask(_) => en.tasks > 0
    case DropTask(_) => en.tasks > 0
    case ReadDone(_, _) => en.files > 0
    case _ => false
  }

  predicate AtEntry(c: Choice) {
    c.Copy? || c.Drop? || c.WaitFor? || c.Find? || c.RunTask? || c.DropTask? || c.ReadDone?
  }

  // --- at the entry ---------------------------------------------------------

  /** What holds of an entry while no thread is at work on it. */
  predicate Rests(en: Entry) {
    && EntryOk(en) && en.count == en.handles + en.tasks + en.files
    && Bool(!en.claimed) + Bool(en.parked) == Bool(en.pending)
    && en.files + Bool(en.left) <= 1 && en.tasks + Bool(en.parked) + en.files <= 1
    && (!en.claimed ==> en.tasks > 0)
    && (en.claimed && !en.parked && en.files == 0 && !en.freed ==> !en.state.Loading?)
  }

  lemma AtRestCounts(s: State, e: nat)
    requires Inv(s) && AllIdle(s) && e < |s.entries|
    ensures var en := s.entries[e];
      && EntryOk(en) && en.count == en.handles + en.tasks + en.files
      && Bool(!en.claimed) + Bool(en.parked) == Bool(en.pending)
      && en.files + Bool(en.left) <= 1 && en.tasks + Bool(en.parked) + en.files <= 1
  {
    assert WordsAt(s.entries[e], e, s.threads);
    SumZero(OwnWeight(e), s.threads);
    SumZero(HoldWeight(e), s.threads);
    SumZero(ReadWeight(e), s.threads);
    SumZero(AheadWeight(e), s.threads);
  }

  lemma AtRestRests(s: State, e: nat)
    requires Inv(s) && AllIdle(s) && e < |s.entries|
    ensures Rests(s.entries[e])
  {
    AtRestCounts(s, e);
    assert Claims(s) && Loadings(s);
  }

  predicate Out(pc: Pc) { pc.Idle? || InList(pc) }

  /** The loader throws, where it is run. */
  function Next(pc: Pc, throws: bool): Choice {
    if throws && (pc.RunStore? || pc.ForceFill? || pc.DirectFill?) then Fail else Go
  }

  /** A step at the entry. */
  function Work(x: (Entry, Thread), throws: bool): (Entry, Thread) {
    if Out(x.1.pc) then x else WordStep(x.0, x.1, Next(x.1.pc, throws), true)
  }

  function Worker(throws: bool): ((Entry, Thread)) -> (Entry, Thread) { (x: (Entry, Thread)) => Work(x, throws) }

  /** Some number of them leads from one to the other. */
  ghost predicate GetsTo(x: (Entry, Thread), throws: bool, y: (Entry, Thread)) { Iterations.Leads(Worker(throws), x, y) }

  lemma Then(x: (Entry, Thread), throws: bool, y: (Entry, Thread), z: (Entry, Thread))
    requires GetsTo(x, throws, y) && GetsTo(y, throws, z)
    ensures GetsTo(x, throws, z)
  {
    Iterations.LeadsOn(Worker(throws), x, y, z);
  }

  lemma First(x: (Entry, Thread), throws: bool, y: (Entry, Thread))
    requires GetsTo(Work(x, throws), throws, y)
    ensures GetsTo(x, throws, y)
  {
    Iterations.LeadsFirst(Worker(throws), x, y);
  }

  lemma Last(x: (Entry, Thread), throws: bool)
    ensures GetsTo(x, throws, Work(x, throws))
  {
    Iterations.LeadsOnce(Worker(throws), x);
  }

  // --- runPending and forceLoad ---------------------------------------------

  lemma RunCountLeads(en: Entry, l: Thread, throws: bool)
    requires l.pc.RunCount?
    ensures GetsTo((en, l), throws, (en.(count := en.count + 1, state := LoadedState(throws)), l.(pc := RunGive)))
  {
    Last((en.(count := en.count + 1), l.(pc := RunStore)), throws);
    First((en, l), throws, (en.(count := en.count + 1, state := LoadedState(throws)), l.(pc := RunGive)));
  }

  lemma RunGiveLeads(en: Entry, l: Thread, throws: bool)
    requires l.pc.RunGive? && en.count > 1
    ensures GetsTo((en, l), throws, (en.(count := en.count - 1, pending := false, runs := en.runs + 1),
                                    l.(pc := if l.how.Task? then Release else WaitLook)))
  {
    var y := (en.(count := en.count - 1, pending := false, runs := en.runs + 1),
              l.(pc := if l.how.Task? then Release else WaitLook));
    Last((en.(count := en.count - 1), l.(pc := RunFree)), throws);
    First((en, l), throws, y);
  }

  /** The entry once its load was run. */
  function RunOnce(en: Entry, throws: bool): Entry {
    en.(claimed := true, state := LoadedState(throws), pending := false, runs := en.runs + 1)
  }

  lemma RunLeads(en: Entry, l: Thread, throws: bool)
    requires l.pc.RunCount? && en.count > 0 && en.claimed
    ensures GetsTo((en, l), throws, (RunOnce(en, throws), l.(pc := if l.how.Task? then Release else WaitLook)))
  {
    var a, k := en.(count := en.count + 1, state := LoadedState(throws)), l.(pc := RunGive);
    RunCountLeads(en, l, throws);
    RunGiveLeads(a, k, throws);
    Then((en, l), throws, (a, k), (RunOnce(en, throws), l.(pc := if l.how.Task? then Release else WaitLook)));
  }

  lemma ForceCountLeads(en: Entry, l: Thread, throws: bool)
    requires l.pc.ForceCount?
    ensures GetsTo((en, l), throws, (en.(count := en.count + 1, state := LoadedState(throws)), l.(pc := ForceGive)))
  {
    Last((en.(count := en.count + 1), l.(pc := ForceFill)), throws);
    First((en, l), throws, (en.(count := en.count + 1, state := LoadedState(throws)), l.(pc := ForceGive)));
  }

  lemma ForceGiveLeads(en: Entry, l: Thread, throws: bool)
    requires l.pc.ForceGive? && en.count > 1
    ensures GetsTo((en, l), throws, (en.(count := en.count - 1, handles := en.handles + 1), l.(pc := Idle)))
  {
    Last((en, l), throws);
  }

  lemma FillLeads(en: Entry, l: Thread, throws: bool)
    requires l.pc.ForceCount? && en.count > 0
    ensures GetsTo((en, l), throws, (en.(state := LoadedState(throws), handles := en.handles + 1), l.(pc := Idle)))
  {
    var a, k := en.(count := en.count + 1, state := LoadedState(throws)), l.(pc := ForceGive);
    ForceCountLeads(en, l, throws);
    ForceGiveLeads(a, k, throws);
    Then((en, l), throws, (a, k), (en.(state := LoadedState(throws), handles := en.handles + 1), l.(pc := Idle)));
  }

  // --- wait -----------------------------------------------------------------

  lemma ClaimLeads(en: Entry, l: Thread, throws: bool)
    requires l.pc.WaitClaim? && !l.how.Task? && en.count > 0 && !en.claimed
    ensures GetsTo((en, l), throws, (RunOnce(en, throws), l.(pc := WaitLook)))
  {
    RunLeads(en.(claimed := true), l.(pc := RunCount), throws);
    First((en, l), throws, (RunOnce(en, throws), l.(pc := WaitLook)));
  }

  lemma ResetLeads(en: Entry, l: Thread, throws: bool)
    requires l.pc.WaitLook? && l.how.Force? && en.state.Failed?
    ensures GetsTo((en, l), throws, (en.(state := Loading), l.(pc := ForceCount)))
  {
    Last((en, l.(pc := ForceReset)), throws);
    First((en, l), throws, (en.(state := Loading), l.(pc := ForceCount)));
  }

  lemma ReloadLeads(en: Entry, l: Thread, throws: bool)
    requires l.pc.WaitLook? && l.how.Force? && en.count > 0 && en.state.Failed?
    ensures GetsTo((en, l), throws, (en.(state := LoadedState(throws), handles := en.handles + 1), l.(pc := Idle)))
  {
    ResetLeads(en, l, throws);
    FillLeads(en.(state := Loading), l.(pc := ForceCount), throws);
    Then((en, l), throws, (en.(state := Loading), l.(pc := ForceCount)),
         (en.(state := LoadedState(throws), handles := en.handles + 1), l.(pc := Idle)));
  }

  lemma LookLeads(en: Entry, l: Thread, throws: bool)
    requires l.pc.WaitLook? && !l.how.Task? && en.count > 0 && !en.state.Loading?
    ensures GetsTo((en, l), throws,
                  ((if l.how.Force? && en.state.Failed? then en.(state := LoadedState(throws)) else en).(handles := en.handles + 1),
                   l.(pc := Idle)))
  {
    if l.how.Force? && en.state.Failed? {
      ReloadLeads(en, l, throws);
    } else {
      Last((en, l), throws);
    }
  }

  lemma ClaimedLeads(en: Entry, l: Thread, throws: bool)
    requires l.pc.WaitClaim? && en.claimed
    ensures GetsTo((en, l), throws, (en, l.(pc := WaitLook)))
  {
    Last((en, l), throws);
  }

  /** A thread that has a count of the entry waits for it. */
  lemma WaitLeads(en: Entry, l: Thread, throws: bool)
    requires l.pc.WaitClaim? && !l.how.Task? && en.count > 0 && !en.parked
    requires en.pending == !en.claimed && (en.claimed ==> !en.state.Loading?)
    ensures GetsTo((en, l), throws,
                  ((if l.how.Force? then Forced(en, throws) else Loaded(en, throws)).(handles := en.handles + 1), l.(pc := Idle)))
  {
    var a := Loaded(en, throws);
    if en.claimed {
      ClaimedLeads(en, l, throws);
    } else {
      ClaimLeads(en, l, throws);
    }
    LookLeads(a, l.(pc := WaitLook), throws);
    Then((en, l), throws, (a, l.(pc := WaitLook)),
         ((if l.how.Force? then Forced(en, throws) else a).(handles := en.handles + 1), l.(pc := Idle)));
  }

  // --- find -----------------------------------------------------------------

  /** find takes PARKED, and the load with it. */
  lemma FindTakes(en: Entry, l: Thread, throws: bool)
    requires en.parked && l.pc.FindAdd?
    ensures GetsTo((en, l), throws,
                  (en.(count := en.count + 1, parked := false), l.(pc := if l.how.Bind? then CountTask else Unpark)))
  {
    Last((en.(count := en.count + 1), l.(pc := FindTake)), throws);
    First((en, l), throws, (en.(count := en.count + 1, parked := false), l.(pc := if l.how.Bind? then CountTask else Unpark)));
  }

  lemma CountTaskLeads(en: Entry, l: Thread, throws: bool)
    requires l.pc.CountTask?
    ensures GetsTo((en, l), throws, (en.(count := en.count + 1, claimed := false), l.(pc := PushTask)))
  {
    Last((en.(count := en.count + 1), l.(pc := UnparkStart)), throws);
    First((en, l), throws, (en.(count := en.count + 1, claimed := false), l.(pc := PushTask)));
  }

  lemma PushTaskLeads(en: Entry, l: Thread, throws: bool)
    requires l.pc.PushTask?
    ensures GetsTo((en, l), throws, (en.(tasks := en.tasks + 1, handles := en.handles + 1), l.(pc := Idle)))
  {
    Last((en, l), throws);
  }

  /** bind starts the load again. */
  lemma RestartLeads(en: Entry, l: Thread, throws: bool)
    requires l.pc.CountTask?
    ensures GetsTo((en, l), throws,
                  (en.(count := en.count + 1, claimed := false, tasks := en.tasks + 1, handles := en.handles + 1), l.(pc := Idle)))
  {
    var a, k := en.(count := en.count + 1, claimed := false), l.(pc := PushTask);
    CountTaskLeads(en, l, throws);
    PushTaskLeads(a, k, throws);
    Then((en, l), throws, (a, k),
         (en.(count := en.count + 1, claimed := false, tasks := en.tasks + 1, handles := en.handles + 1), l.(pc := Idle)));
  }

  lemma UnparkLeads(en: Entry, l: Thread, throws: bool)
    requires l.pc.Unpark? && l.how.Force?
    ensures GetsTo((en, l), throws, (en.(claimed := true), l.(pc := ForceFree)))
  {
    Last((en.(claimed := false), l.(pc := ForceClaim)), throws);
    First((en, l), throws, (en.(claimed := true), l.(pc := ForceFree)));
  }

  lemma ForceFreeLeads(en: Entry, l: Thread, throws: bool)
    requires l.pc.ForceFree? && en.count > 0 && en.claimed
    ensures GetsTo((en, l), throws, (RunOnce(en, throws).(handles := en.handles + 1), l.(pc := Idle)))
  {
    FillLeads(en.(pending := false, runs := en.runs + 1), l.(pc := ForceCount), throws);
    First((en, l), throws, (RunOnce(en, throws).(handles := en.handles + 1), l.(pc := Idle)));
  }

  /** forceLoad frees the parked load and loads itself. */
  lemma ForceLeads(en: Entry, l: Thread, throws: bool)
    requires l.pc.Unpark? && l.how.Force? && en.count > 0
    ensures GetsTo((en, l), throws, (RunOnce(en, throws).(handles := en.handles + 1), l.(pc := Idle)))
  {
    UnparkLeads(en, l, throws);
    ForceFreeLeads(en.(claimed := true), l.(pc := ForceFree), throws);
    Then((en, l), throws, (en.(claimed := true), l.(pc := ForceFree)),
         (RunOnce(en, throws).(handles := en.handles + 1), l.(pc := Idle)));
  }

  /** load takes it like any wait. */
  lemma UnparkWaitLeads(en: Entry, l: Thread, throws: bool)
    requires l.pc.Unpark? && l.how.Wait? && en.count > 0 && !en.parked && en.pending
    ensures GetsTo((en, l), throws, (RunOnce(en, throws).(handles := en.handles + 1), l.(pc := Idle)))
  {
    WaitLeads(en.(claimed := false), l.(pc := WaitClaim), throws);
    First((en, l), throws, (RunOnce(en, throws).(handles := en.handles + 1), l.(pc := Idle)));
  }

  lemma TakenLeads(en: Entry, l: Thread, throws: bool)
    requires !en.parked && en.pending && en.count > 0 && l.pc.Unpark? && (l.how.Wait? || l.how.Force?)
    ensures GetsTo((en, l), throws, (RunOnce(en, throws).(handles := en.handles + 1), l.(pc := Idle)))
  {
    if l.how.Force? {
      ForceLeads(en, l, throws);
    } else {
      UnparkWaitLeads(en, l, throws);
    }
  }

  lemma FindParkedLeads(en: Entry, l: Thread, throws: bool)
    requires l.pc.FindAdd? && !l.how.Task? && en.parked && en.pending
    ensures GetsTo((en, l), throws, (Found(en, l.how, throws), l.(pc := Idle)))
  {
    var a := en.(count := en.count + 1, parked := false);
    FindTakes(en, l, throws);
    if l.how.Bind? {
      RestartLeads(a, l.(pc := CountTask), throws);
    } else {
      TakenLeads(a, l.(pc := Unpark), throws);
    }
    Then((en, l), throws, (en.(count := en.count + 1, parked := false), l.(pc := if l.how.Bind? then CountTask else Unpark)),
         (Found(en, l.how, throws), l.(pc := Idle)));
  }

  lemma FindBoundLeads(en: Entry, l: Thread, throws: bool)
    requires l.pc.FindAdd? && l.how.Bind? && !en.parked
    ensures GetsTo((en, l), throws, (Handed(en), l.(pc := Idle)))
  {
    Last((en, l), throws);
  }

  lemma LoadedHanded(en: Entry, throws: bool)
    ensures Loaded(en.(count := en.count + 1), throws).(handles := en.handles + 1) == Handed(Loaded(en, throws))
  {}

  lemma ForcedHanded(en: Entry, throws: bool)
    ensures Forced(en.(count := en.count + 1), throws).(handles := en.handles + 1) == Handed(Forced(en, throws))
  {
    var a := en.(count := en.count + 1);
    if en.pending {
      assert Forced(a, throws) == Loaded(a, throws) && Forced(en, throws) == Loaded(en, throws);
      LoadedHanded(en, throws);
    } else if en.state.Failed? {
      assert Forced(a, throws) == a.(state := LoadedState(throws));
    } else {
      assert Forced(a, throws) == a;
    }
  }

  lemma FindWaitIsFound(en: Entry, how: How, throws: bool)
    requires how.Wait? || how.Force?
    ensures var a := en.(count := en.count + 1);
      (if how.Force? then Forced(a, throws) else Loaded(a, throws)).(handles := a.handles + 1) == Found(en, how, throws)
  {
    if how.Force? {
      ForcedHanded(en, throws);
    } else {
      LoadedHanded(en, throws);
    }
  }

  lemma FindAddLeads(en: Entry, l: Thread, throws: bool)
    requires l.pc.FindAdd? && (l.how.Wait? || l.how.Force?) && !en.parked
    ensures GetsTo((en, l), throws, (en.(count := en.count + 1), l.(pc := WaitClaim)))
  {
    Last((en, l), throws);
  }

  lemma FindWaitLeads(en: Entry, l: Thread, throws: bool)
    requires l.pc.FindAdd? && (l.how.Wait? || l.how.Force?) && !en.parked
    requires en.pending == !en.claimed && (en.claimed ==> !en.state.Loading?)
    ensures GetsTo((en, l), throws, (Found(en, l.how, throws), l.(pc := Idle)))
  {
    var y := (en.(count := en.count + 1), l.(pc := WaitClaim));
    FindAddLeads(en, l, throws);
    WaitLeads(y.0, y.1, throws);
    FindWaitIsFound(en, l.how, throws);
    Then((en, l), throws, y, (Found(en, l.how, throws), l.(pc := Idle)));
  }

  lemma FindLeads(en: Entry, l: Thread, throws: bool)
    requires Rests(en) && !en.freed && l.pc.FindAdd? && !l.how.Task? && (l.how.Bind? || en.files == 0)
    ensures GetsTo((en, l), throws, (Found(en, l.how, throws), l.(pc := Idle)))
  {
    if en.parked {
      FindParkedLeads(en, l, throws);
    } else if l.how.Bind? {
      FindBoundLeads(en, l, throws);
    } else {
      FindWaitLeads(en, l, throws);
    }
  }

  // --- tasks, reads and releases --------------------------------------------

  /** Done with the entry, which the thread has to queue or not. */
  function Done(en: Entry, l: Thread, after: Entry): (Entry, Thread) {
    (after, l.(pc := if after.count == 0 && !en.queued then PushLoad else Idle))
  }

  lemma ReleaseLeads(en: Entry, l: Thread, throws: bool)
    requires (l.pc.Release? || l.pc.ParkRelease?) && en.count > 0
    ensures GetsTo((en, l), throws, Done(en, l, Released(en)))
  {
    Last((en, l), throws);
  }

  lemma ParkLeads(en: Entry, l: Thread, throws: bool)
    requires l.pc.TaskPark? && en.count == 1 && en.claimed
    ensures GetsTo((en, l), throws, (en.(parked := true), l.(pc := ParkRelease)))
  {
    Last((en, l), throws);
  }

  lemma ParkRunLeads(en: Entry, l: Thread, throws: bool)
    requires l.pc.TaskPark? && l.how.Task? && en.count > 1 && en.claimed
    ensures GetsTo((en, l), throws, (RunOnce(en, throws), l.(pc := Release)))
  {
    RunLeads(en, l.(pc := RunCount), throws);
    First((en, l), throws, (RunOnce(en, throws), l.(pc := Release)));
  }

  /** A task takes the load, and parks it if it has the only count. */
  lemma RunTaskLeads(en: Entry, l: Thread, throws: bool)
    requires en.count > 0 && l.pc.TaskClaim? && l.how.Task? && !en.claimed
    ensures GetsTo((en, l), throws, if en.count == 1 then (en.(claimed := true, parked := true), l.(pc := ParkRelease))
                                   else (RunOnce(en, throws), l.(pc := Release)))
  {
    if en.count == 1 {
      ParkLeads(en.(claimed := true), l.(pc := TaskPark), throws);
      First((en, l), throws, (en.(claimed := true, parked := true), l.(pc := ParkRelease)));
    } else {
      ParkRunLeads(en.(claimed := true), l.(pc := TaskPark), throws);
      First((en, l), throws, (RunOnce(en, throws), l.(pc := Release)));
    }
  }

  lemma TaskGivesUp(en: Entry, l: Thread, throws: bool)
    requires (l.pc.TaskClaim? || l.pc.DropClaim?) && en.claimed
    ensures GetsTo((en, l), throws, (en, l.(pc := Release)))
  {
    Last((en, l), throws);
  }

  lemma RunTaskEnds(en: Entry, l: Thread, throws: bool, after: Entry)
    requires en.count > 0 && l.pc.TaskClaim? && l.how.Task? && !en.parked && en.pending == !en.claimed
    requires after == if en.pending && en.count == 1 then en.(claimed := true, parked := true) else Loaded(en, throws)
    ensures GetsTo((en, l), throws, Done(en, l, Released(after)))
  {
    var k := l.(pc := if en.pending && en.count == 1 then ParkRelease else Release);
    if en.claimed {
      TaskGivesUp(en, l, throws);
    } else {
      RunTaskLeads(en, l, throws);
    }
    ReleaseLeads(after, k, throws);
    Then((en, l), throws, (after, k), Done(en, l, Released(after)));
  }

  lemma FailLeads(en: Entry, l: Thread, throws: bool)
    requires l.pc.FailStore?
    ensures GetsTo((en, l), throws, (en.(state := Failed, pending := false, runs := en.runs + 1), l.(pc := Release)))
  {
    Last((en.(state := Failed), l.(pc := FailFree)), throws);
    First((en, l), throws, (en.(state := Failed, pending := false, runs := en.runs + 1), l.(pc := Release)));
  }

  lemma DropTaskLeads(en: Entry, l: Thread, throws: bool)
    requires l.pc.DropClaim? && !en.claimed
    ensures GetsTo((en, l), throws, (RunOnce(en, true), l.(pc := Release)))
  {
    FailLeads(en.(claimed := true), l.(pc := FailStore), throws);
    First((en, l), throws, (RunOnce(en, true), l.(pc := Release)));
  }

  lemma DropTaskEnds(en: Entry, l: Thread, throws: bool)
    requires en.count > 0 && l.pc.DropClaim? && !en.parked && en.pending == !en.claimed
    ensures GetsTo((en, l), throws, Done(en, l, Released(Loaded(en, true))))
  {
    if en.claimed {
      TaskGivesUp(en, l, throws);
    } else {
      DropTaskLeads(en, l, throws);
    }
    ReleaseLeads(Loaded(en, true), l.(pc := Release), throws);
    Then((en, l), throws, (Loaded(en, true), l.(pc := Release)), Done(en, l, Released(Loaded(en, true))));
  }

  lemma ReadUnparkLeads(en: Entry, l: Thread, throws: bool)
    requires l.pc.ReadUnpark?
    ensures GetsTo((en, l), throws, (en.(claimed := false, tasks := en.tasks + 1), l.(pc := Idle)))
  {
    Last((en.(claimed := false), l.(pc := ReadPush)), throws);
    First((en, l), throws, (en.(claimed := false, tasks := en.tasks + 1), l.(pc := Idle)));
  }

  lemma ReadEnds(en: Entry, l: Thread, throws: bool)
    requires l.pc.ReadPending?
    ensures GetsTo((en, l), throws,
                  (en.(pending := true, left := true, claimed := false, tasks := en.tasks + 1), l.(pc := Idle)))
  {
    ReadUnparkLeads(en.(pending := true, left := true), l.(pc := ReadUnpark), throws);
    First((en, l), throws, (en.(pending := true, left := true, claimed := false, tasks := en.tasks + 1), l.(pc := Idle)));
  }

  lemma ReadFails(en: Entry, l: Thread, throws: bool)
    requires en.count > 0 && l.pc.ReadFail?
    ensures GetsTo((en, l), throws, Done(en, l, Released(en.(state := Failed))))
  {
    ReleaseLeads(en.(state := Failed), l.(pc := Release), throws);
    First((en, l), throws, Done(en, l, Released(en.(state := Failed))));
  }

  lemma CopyLeads(en: Entry, l: Thread, throws: bool)
    requires l.pc.CopyAdd?
    ensures GetsTo((en, l), throws, (en.(count := en.count + 1, handles := en.handles + 2), l.(pc := Idle)))
  {
    Last((en, l), throws);
  }

  // --- all operations -------------------------------------------------------

  lemma HandleEnds(en: Entry, l: Thread, c: Choice, throws: bool)
    requires Rests(en) && !en.freed && (c.Copy? || c.Drop? || c.WaitFor? || c.Find?) && CanBegin(en, c) && l.pc.Idle?
    ensures var x := BeginStep(en, l, c, true); GetsTo(x, throws, Done(en, x.1, After(en, c, throws)))
  {
    var x := BeginStep(en, l, c, true);
    if c.Copy? {
      CopyLeads(x.0, x.1, throws);
    } else if c.Drop? {
      ReleaseLeads(x.0, x.1, throws);
    } else if c.WaitFor? {
      WaitLeads(x.0, x.1, throws);
    } else {
      FindLeads(x.0, x.1, throws);
    }
  }

  /** At rest a task that waits is the only one. */
  lemma TaskRan(en: Entry, throws: bool)
    requires Rests(en) && en.tasks > 0
    ensures en.tasks == 1 && en.count > 0 && !en.parked && en.pending == !en.claimed
    ensures var a := en.(tasks := 0);
      && Ran(en, throws).(tasks := 0) == (if a.pending && a.count == 1 then a.(claimed := true, parked := true) else Loaded(a, throws))
      && Loaded(a, throws) == Loaded(en, throws).(tasks := 0)
  {}

  lemma TaskEnds(en: Entry, l: Thread, c: Choice, throws: bool)
    requires Rests(en) && c.RunTask? && CanBegin(en, c) && l.pc.Idle?
    ensures var x := BeginStep(en, l, c, true); GetsTo(x, throws, Done(en, x.1, After(en, c, throws)))
  {
    TaskRan(en, throws);
    var x := (en.(tasks := 0), Start(l, TaskClaim, c.e, Task));
    assert BeginStep(en, l, c, true) == x;
    RunTaskEnds(x.0, x.1, throws, Ran(en, throws).(tasks := 0));
  }

  lemma DroppedTaskEnds(en: Entry, l: Thread, c: Choice, throws: bool)
    requires Rests(en) && c.DropTask? && CanBegin(en, c) && l.pc.Idle?
    ensures var x := BeginStep(en, l, c, true); GetsTo(x, throws, Done(en, x.1, After(en, c, throws)))
  {
    TaskRan(en, true);
    var x := (en.(tasks := 0), Start(l, DropClaim, c.e, Task));
    assert BeginStep(en, l, c, true) == x;
    DropTaskEnds(x.0, x.1, throws);
    assert After(en, c, throws) == Released(Loaded(x.0, true));
  }

  lemma FileEnds(en: Entry, l: Thread, c: Choice, throws: bool)
    requires Rests(en) && c.ReadDone? && CanBegin(en, c) && l.pc.Idle?
    ensures var x := BeginStep(en, l, c, true); GetsTo(x, throws, Done(en, x.1, After(en, c, throws)))
  {
    var x := BeginStep(en, l, c, true);
    if c.bytes {
      ReadEnds(x.0, x.1, throws);
    } else {
      ReadFails(x.0, x.1, throws);
    }
  }

  lemma EntryEnds(en: Entry, l: Thread, c: Choice, throws: bool)
    requires Rests(en) && !en.freed && AtEntry(c) && CanBegin(en, c) && l.pc.Idle?
    ensures var x := BeginStep(en, l, c, true); GetsTo(x, throws, Done(en, x.1, After(en, c, throws)))
  {
    if c.RunTask? {
      TaskEnds(en, l, c, throws);
    } else if c.DropTask? {
      DroppedTaskEnds(en, l, c, throws);
    } else if c.ReadDone? {
      FileEnds(en, l, c, throws);
    } else {
      HandleEnds(en, l, c, throws);
    }
  }
}
