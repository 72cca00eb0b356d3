/**
 What a step at the word of an entry does to the entry and to its thread, as
 far as the invariant of ResourceInvariant needs it.
 */
module ResourceEffects {
  import opened Counting
  import opened ResourceEntry

  // --- what a program counter says about its thread -------------------------

  /** The counts of its entry the thread is at work on. */
  function Own(pc: Pc): nat {
    if pc.Idle? || pc.FindAdd? || InList(pc) then 0
    else if pc.UnparkStart? || pc.PushTask? || pc.MakeRead? || pc.RunStore? || pc.RunGive? || pc.ForceFill? || pc.ForceGive?
    then 2 else 1
  }

  /** Has the load left in the entry to itself. */
  predicate Holds(pc: Pc) {
    pc.CountTask? || pc.UnparkStart? || pc.Unpark? || pc.ReadUnpark? || pc.RunCount? || pc.RunStore? ||
    pc.RunGive? || pc.RunFree? || pc.TaskPark? || pc.FailStore? || pc.FailFree? || pc.ForceFree?
  }

  /** Has the read whose bytes are to be left in the entry. */
  predicate Reads(pc: Pc) { pc.MakeRead? || pc.ReadPending? || pc.ReadFail? }

  /** Will queue a task, or is a task before it ran the load or parked it. */
  predicate TaskAhead(pc: Pc) {
    pc.MakeRead? || pc.ReadPending? || pc.ReadUnpark? || pc.ReadPush? || pc.CountTask? || pc.UnparkStart? ||
    pc.PushTask? || pc.TaskClaim? || pc.DropClaim? || pc.TaskPark?
  }

  /** Goes on to a claim, or to the push of a task. */
  predicate WillClaim(pc: Pc) {
    pc.PushTask? || pc.ReadPush? || pc.TaskClaim? || pc.DropClaim? || pc.WaitClaim? || pc.ForceClaim?
  }

  /** Goes on to load the resource, to let it fail, or to leave that to a claim. */
  predicate Loads(pc: Pc) {
    pc.MakeRead? || pc.ReadPending? || pc.ReadUnpark? || pc.ReadFail? || pc.CountTask? || pc.UnparkStart? || pc.Unpark? ||
    pc.TaskPark? || pc.RunCount? || pc.RunStore? || pc.FailStore? || pc.ForceFree? || pc.ForceCount? || pc.ForceFill? ||
    pc.DirectFill?
  }

  /** May hold a count of an entry that is parked. */
  predicate MidStep(pc: Pc) { pc.FindTake? || pc.ParkRelease? }

  predicate HoldsPlace(pc: Pc) {
    pc.PushLoad? || pc.PushLink? || pc.PushSwap? || pc.CollectLook? || pc.CollectErase?
  }

  // --- what holds of an entry, and of it with a thread at work on it --------

  predicate EntryOk(en: Entry) {
    && en.runs + Bool(en.pending) == Bool(en.left)
    && (en.count == 0 ==> en.queued)
    && (!en.mapped ==> en.count == 0)
    && (en.freed ==> en.count == 0 && !en.mapped && !en.pending)
    && (en.parked ==> en.handles == 0 && en.tasks == 0 && en.files == 0)
  }

  predicate WordOk(en: Entry, l: Thread) {
    && EntryOk(en)
    && en.count >= en.handles + en.tasks + en.files + Own(l.pc)
    && Bool(!en.claimed) + Bool(en.parked) + Bool(Holds(l.pc)) <= Bool(en.pending)
    && en.files + Bool(Reads(l.pc)) + Bool(en.left) <= 1
    && en.tasks + Bool(en.parked) + en.files + Bool(TaskAhead(l.pc)) <= 1
    && (en.parked && Own(l.pc) > 0 ==> MidStep(l.pc))
    && (l.pc.FindAdd? ==> en.mapped)
  }

  // --- what a step does -----------------------------------------------------

  predicate CountEffect(en: Entry, l: Thread, en': Entry, l': Thread) {
    && en'.count + (en.handles + en.tasks + en.files + Own(l.pc)) ==
       en.count + (en'.handles + en'.tasks + en'.files + Own(l'.pc))
  }

  predicate LoadEffect(en: Entry, l: Thread, en': Entry, l': Thread) {
    && Bool(en'.pending) + (Bool(!en.claimed) + Bool(en.parked) + Bool(Holds(l.pc))) ==
       Bool(en.pending) + (Bool(!en'.claimed) + Bool(en'.parked) + Bool(Holds(l'.pc)))
    && en.runs <= en'.runs && (en.runs < en'.runs ==> en.pending && en'.runs == 1)
  }

  predicate AheadEffect(en: Entry, l: Thread, en': Entry, l': Thread) {
    && en'.files + Bool(Reads(l'.pc)) + Bool(en'.left) <= en.files + Bool(Reads(l.pc)) + Bool(en.left)
    && en'.tasks + Bool(en'.parked) + en'.files + Bool(TaskAhead(l'.pc)) <=
       en.tasks + Bool(en.parked) + en.files + Bool(TaskAhead(l.pc))
  }

  /** A parked entry stays alone, and is parked only by its last count. */
  predicate ParkEffect(en: Entry, l: Thread, en': Entry, l': Thread) {
    && (en'.parked ==> en.parked || (en.count == 1 && Own(l.pc) == 1 && en.handles + en.tasks + en.files == 0))
    && (en'.parked && Own(l'.pc) > 0 ==> MidStep(l'.pc))
  }

  predicate ClaimEffect(en: Entry, l: Thread, en': Entry, l': Thread) {
    !en'.claimed ==> en'.tasks > 0 || WillClaim(l'.pc) || (!en.claimed && en.tasks == 0 && !WillClaim(l.pc))
  }

  predicate StateEffect(en: Entry, l: Thread, en': Entry, l': Thread) {
    en'.state.Loading? ==>
      || !en'.claimed || en'.parked || en'.files > 0 || Loads(l'.pc)
      || (en.state.Loading? && en.claimed && !en.parked && en.files == 0 && !Loads(l.pc))
  }

  predicate PlaceEffect(en: Entry, l: Thread, en': Entry, l': Thread) {
    && en'.mapped == en.mapped && en'.freed == en.freed
    && (en.count == 0 && !l.pc.FindAdd? ==> en'.count == 0)
    && Bool(en'.queued) + Bool(HoldsPlace(l.pc)) == Bool(en.queued) + Bool(HoldsPlace(l'.pc))
    && (HoldsPlace(l'.pc) ==> l'.pc.PushLoad? && !en.freed)
  }

  predicate ThreadEffect(en: Entry, l: Thread, l': Thread, open: bool) {
    && l'.mine == l.mine && l'.corpses == l.corpses && l'.list == l.list && l'.dead == l.dead
    && !Locked(l'.pc) && !l'.pc.CollectFree? && !l'.pc.CollectLock? && !l'.pc.PushSwap?
    && (InSection(l'.pc) ==> InSection(l.pc) || open)
    && (l'.pc.FindAdd? ==> en.mapped)
  }

  predicate AllEffects(en: Entry, l: Thread, en': Entry, l': Thread, open: bool) {
    && CountEffect(en, l, en', l') && LoadEffect(en, l, en', l') && AheadEffect(en, l, en', l')
    && EntryOk(en') && ParkEffect(en, l, en', l') && ClaimEffect(en, l, en', l') && StateEffect(en, l, en', l') && PlaceEffect(en, l, en', l')
    && ThreadEffect(en, l, l', open)
  }

  lemma BeginCounts(en: Entry, l: Thread, c: Choice, open: bool)
    requires WordOk(en, l) && l.pc.Idle?
    ensures var (en', l') := BeginStep(en, l, c, open); CountEffect(en, l, en', l')
  {}

  lemma BeginLoad(en: Entry, l: Thread, c: Choice, open: bool)
    requires WordOk(en, l) && l.pc.Idle?
    ensures var (en', l') := BeginStep(en, l, c, open); LoadEffect(en, l, en', l')
  {}

  lemma BeginWord(en: Entry, l: Thread, c: Choice, open: bool)
    requires WordOk(en, l) && l.pc.Idle?
    ensures var (en', l') := BeginStep(en, l, c, open); EntryOk(en')
  {}

  lemma BeginQueue(en: Entry, l: Thread, c: Choice, open: bool)
    requires WordOk(en, l) && l.pc.Idle?
    ensures var (en', l') := BeginStep(en, l, c, open); AheadEffect(en, l, en', l') && ParkEffect(en, l, en', l')
  {}

  lemma BeginWaits(en: Entry, l: Thread, c: Choice, open: bool)
    requires WordOk(en, l) && l.pc.Idle?
    ensures var (en', l') := BeginStep(en, l, c, open); ClaimEffect(en, l, en', l') && StateEffect(en, l, en', l')
  {}

  lemma BeginPlace(en: Entry, l: Thread, c: Choice, open: bool)
    requires WordOk(en, l) && l.pc.Idle?
    ensures var (en', l') := BeginStep(en, l, c, open); PlaceEffect(en, l, en', l') && ThreadEffect(en, l, l', open)
  {}

  lemma BeginEffects(en: Entry, l: Thread, c: Choice, open: bool)
    requires WordOk(en, l) && l.pc.Idle?
    ensures var (en', l') := BeginStep(en, l, c, open); AllEffects(en, l, en', l', open)
  {
    BeginCounts(en, l, c, open);
    BeginLoad(en, l, c, open);
    BeginWord(en, l, c, open);
    BeginQueue(en, l, c, open);
    BeginWaits(en, l, c, open);
    BeginPlace(en, l, c, open);
  }

  lemma FindCounts(en: Entry, l: Thread)
    requires WordOk(en, l) && InFind(l.pc)
    ensures var (en', l') := FindStep(en, l); CountEffect(en, l, en', l')
  {}

  lemma FindLoad(en: Entry, l: Thread)
    requires WordOk(en, l) && InFind(l.pc)
    ensures var (en', l') := FindStep(en, l); LoadEffect(en, l, en', l')
  {}

  lemma FindWord(en: Entry, l: Thread)
    requires WordOk(en, l) && InFind(l.pc)
    ensures var (en', l') := FindStep(en, l); EntryOk(en')
  {}

  lemma FindQueue(en: Entry, l: Thread)
    requires WordOk(en, l) && InFind(l.pc)
    ensures var (en', l') := FindStep(en, l); AheadEffect(en, l, en', l') && ParkEffect(en, l, en', l')
  {}

  lemma FindWaits(en: Entry, l: Thread)
    requires WordOk(en, l) && InFind(l.pc)
    ensures var (en', l') := FindStep(en, l); ClaimEffect(en, l, en', l') && StateEffect(en, l, en', l')
  {}

  lemma FindPlace(en: Entry, l: Thread, open: bool)
    requires WordOk(en, l) && InFind(l.pc)
    ensures var (en', l') := FindStep(en, l); PlaceEffect(en, l, en', l') && ThreadEffect(en, l, l', open)
  {}

  lemma FindEffects(en: Entry, l: Thread, open: bool)
    requires WordOk(en, l) && InFind(l.pc)
    ensures var (en', l') := FindStep(en, l); AllEffects(en, l, en', l', open)
  {
    FindCounts(en, l);
    FindLoad(en, l);
    FindWord(en, l);
    FindQueue(en, l);
    FindWaits(en, l);
    FindPlace(en, l, open);
  }

  lemma WaitCounts(en: Entry, l: Thread, c: Choice)
    requires WordOk(en, l) && InWait(l.pc)
    ensures var (en', l') := WaitStep(en, l, c); CountEffect(en, l, en', l')
  {}

  lemma WaitLoad(en: Entry, l: Thread, c: Choice)
    requires WordOk(en, l) && InWait(l.pc)
    ensures var (en', l') := WaitStep(en, l, c); LoadEffect(en, l, en', l')
  {}

  lemma WaitWord(en: Entry, l: Thread, c: Choice)
    requires WordOk(en, l) && InWait(l.pc)
    ensures var (en', l') := WaitStep(en, l, c); EntryOk(en')
  {}

  lemma WaitQueue(en: Entry, l: Thread, c: Choice)
    requires WordOk(en, l) && InWait(l.pc)
    ensures var (en', l') := WaitStep(en, l, c); AheadEffect(en, l, en', l') && ParkEffect(en, l, en', l')
  {}

  lemma WaitWaits(en: Entry, l: Thread, c: Choice)
    requires WordOk(en, l) && InWait(l.pc)
    ensures var (en', l') := WaitStep(en, l, c); ClaimEffect(en, l, en', l') && StateEffect(en, l, en', l')
  {}

  lemma WaitPlace(en: Entry, l: Thread, c: Choice, open: bool)
    requires WordOk(en, l) && InWait(l.pc)
    ensures var (en', l') := WaitStep(en, l, c); PlaceEffect(en, l, en', l') && ThreadEffect(en, l, l', open)
  {}

  lemma WaitEffects(en: Entry, l: Thread, c: Choice, open: bool)
    requires WordOk(en, l) && InWait(l.pc)
    ensures var (en', l') := WaitStep(en, l, c); AllEffects(en, l, en', l', open)
  {
    WaitCounts(en, l, c);
    WaitLoad(en, l, c);
    WaitWord(en, l, c);
    WaitQueue(en, l, c);
    WaitWaits(en, l, c);
    WaitPlace(en, l, c, open);
  }

  lemma TaskCounts(en: Entry, l: Thread, c: Choice)
    requires WordOk(en, l) && InTask(l.pc)
    ensures var (en', l') := TaskStep(en, l, c); CountEffect(en, l, en', l')
  {}

  lemma TaskLoad(en: Entry, l: Thread, c: Choice)
    requires WordOk(en, l) && InTask(l.pc)
    ensures var (en', l') := TaskStep(en, l, c); LoadEffect(en, l, en', l')
  {}

  lemma TaskWord(en: Entry, l: Thread, c: Choice)
    requires WordOk(en, l) && InTask(l.pc)
    ensures var (en', l') := TaskStep(en, l, c); EntryOk(en')
  {}

  lemma TaskQueue(en: Entry, l: Thread, c: Choice)
    requires WordOk(en, l) && InTask(l.pc)
    ensures var (en', l') := TaskStep(en, l, c); AheadEffect(en, l, en', l') && ParkEffect(en, l, en', l')
  {}

  lemma TaskWaits(en: Entry, l: Thread, c: Choice)
    requires WordOk(en, l) && InTask(l.pc)
    ensures var (en', l') := TaskStep(en, l, c); ClaimEffect(en, l, en', l') && StateEffect(en, l, en', l')
  {}

  lemma TaskPlace(en: Entry, l: Thread, c: Choice, open: bool)
    requires WordOk(en, l) && InTask(l.pc)
    ensures var (en', l') := TaskStep(en, l, c); PlaceEffect(en, l, en', l') && ThreadEffect(en, l, l', open)
  {}

  lemma TaskEffects(en: Entry, l: Thread, c: Choice, open: bool)
    requires WordOk(en, l) && InTask(l.pc)
    ensures var (en', l') := TaskStep(en, l, c); AllEffects(en, l, en', l', open)
  {
    TaskCounts(en, l, c);
    TaskLoad(en, l, c);
    TaskWord(en, l, c);
    TaskQueue(en, l, c);
    TaskWaits(en, l, c);
    TaskPlace(en, l, c, open);
  }

  lemma ForceCounts(en: Entry, l: Thread, c: Choice)
    requires WordOk(en, l) && InForce(l.pc)
    ensures var (en', l') := ForceStep(en, l, c); CountEffect(en, l, en', l')
  {}

  lemma ForceLoad(en: Entry, l: Thread, c: Choice)
    requires WordOk(en, l) && InForce(l.pc)
    ensures var (en', l') := ForceStep(en, l, c); LoadEffect(en, l, en', l')
  {}

  lemma ForceWord(en: Entry, l: Thread, c: Choice)
    requires WordOk(en, l) && InForce(l.pc)
    ensures var (en', l') := ForceStep(en, l, c); EntryOk(en')
  {}

  lemma ForceQueue(en: Entry, l: Thread, c: Choice)
    requires WordOk(en, l) && InForce(l.pc)
    ensures var (en', l') := ForceStep(en, l, c); AheadEffect(en, l, en', l') && ParkEffect(en, l, en', l')
  {}

  lemma ForceWaits(en: Entry, l: Thread, c: Choice)
    requires WordOk(en, l) && InForce(l.pc)
    ensures var (en', l') := ForceStep(en, l, c); ClaimEffect(en, l, en', l') && StateEffect(en, l, en', l')
  {}

  lemma ForcePlace(en: Entry, l: Thread, c: Choice, open: bool)
    requires WordOk(en, l) && InForce(l.pc)
    ensures var (en', l') := ForceStep(en, l, c); PlaceEffect(en, l, en', l') && ThreadEffect(en, l, l', open)
  {}

  lemma ForceEffects(en: Entry, l: Thread, c: Choice, open: bool)
    requires WordOk(en, l) && InForce(l.pc)
    ensures var (en', l') := ForceStep(en, l, c); AllEffects(en, l, en', l', open)
  {
    ForceCounts(en, l, c);
    ForceLoad(en, l, c);
    ForceWord(en, l, c);
    ForceQueue(en, l, c);
    ForceWaits(en, l, c);
    ForcePlace(en, l, c, open);
  }

  lemma ReadCounts(en: Entry, l: Thread, c: Choice)
    requires WordOk(en, l) && InRead(l.pc)
    ensures var (en', l') := ReadStep(en, l, c); CountEffect(en, l, en', l')
  {}

  lemma ReadLoad(en: Entry, l: Thread, c: Choice)
    requires WordOk(en, l) && InRead(l.pc)
    ensures var (en', l') := ReadStep(en, l, c); LoadEffect(en, l, en', l')
  {}

  lemma ReadWord(en: Entry, l: Thread, c: Choice)
    requires WordOk(en, l) && InRead(l.pc)
    ensures var (en', l') := ReadStep(en, l, c); EntryOk(en')
  {}

  lemma ReadQueue(en: Entry, l: Thread, c: Choice)
    requires WordOk(en, l) && InRead(l.pc)
    ensures var (en', l') := ReadStep(en, l, c); AheadEffect(en, l, en', l') && ParkEffect(en, l, en', l')
  {}

  lemma ReadWaits(en: Entry, l: Thread, c: Choice)
    requires WordOk(en, l) && InRead(l.pc)
    ensures var (en', l') := ReadStep(en, l, c); ClaimEffect(en, l, en', l') && StateEffect(en, l, en', l')
  {}

  lemma ReadPlace(en: Entry, l: Thread, c: Choice, open: bool)
    requires WordOk(en, l) && InRead(l.pc)
    ensures var (en', l') := ReadStep(en, l, c); PlaceEffect(en, l, en', l') && ThreadEffect(en, l, l', open)
  {}

  lemma ReadEffects(en: Entry, l: Thread, c: Choice, open: bool)
    requires WordOk(en, l) && InRead(l.pc)
    ensures var (en', l') := ReadStep(en, l, c); AllEffects(en, l, en', l', open)
  {
    ReadCounts(en, l, c);
    ReadLoad(en, l, c);
    ReadWord(en, l, c);
    ReadQueue(en, l, c);
    ReadWaits(en, l, c);
    ReadPlace(en, l, c, open);
  }

  lemma Effects(en: Entry, l: Thread, c: Choice, open: bool)
    requires WordOk(en, l) && !InList(l.pc)
    ensures var (en', l') := WordStep(en, l, c, open); AllEffects(en, l, en', l', open)
  {
    if l.pc.Idle? {
      BeginEffects(en, l, c, open);
    } else if InFind(l.pc) {
      FindEffects(en, l, open);
    } else if InWait(l.pc) {
      WaitEffects(en, l, c, open);
    } else if InTask(l.pc) {
      TaskEffects(en, l, c, open);
    } else if InForce(l.pc) {
      ForceEffects(en, l, c, open);
    } else {
      ReadEffects(en, l, c, open);
    }
  }
}
