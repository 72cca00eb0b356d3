/**
 The entries of a resource cache (resource.hpp): the word with the count of
 handles, QUEUED and PARKED, the claim of the load left in an entry, and the
 unused list that collect takes. Any number of threads bind, load, find,
 reload, copy, drop and wait for handles, run or drop the tasks of loads, end
 reads of files and collect, one step per access to an atomic. All entries are
 of one owner.
 */
module ResourceEntry {

  const NONE: int := -1

  datatype LoadState = Loading | Ready | Failed

  /** count, queued and parked are the word refs. handles, tasks and files: the
      counts that no thread is at work on: of handles there are, of a task that
      waits, of a read under way. left: a load was left in the entry; runs: how
      often runPending was called for it. mapped: a map of the cache has it. */
  datatype Entry = Entry(
    count: nat, queued: bool, parked: bool, claimed: bool, state: LoadState, pending: bool,
    mapped: bool, freed: bool, handles: nat, tasks: nat, files: nat, left: bool, runs: nat)

  datatype Pc =
    | Idle
    // a copy of a handle; acquireFound; startParked up to the push of startTask
    | CopyAdd | FindAdd | FindTake | CountTask | UnparkStart | PushTask | Unpark
    // wait, and runPending(Load)
    | WaitClaim | WaitLook | RunCount | RunStore | RunGive | RunFree
    // tasks, run or dropped, and the release of a count
    | TaskClaim | TaskPark | DropClaim | FailStore | FailFree | Release | ParkRelease
    // forceLoad of an entry that was there
    | ForceClaim | ForceFree | ForceCount | ForceFill | ForceGive | ForceReset
    // fill of a new entry, or the read of its file
    | DirectFill | MakeRead | ReadPending | ReadUnpark | ReadPush | ReadFail
    // the push to the unused list
    | PushLoad | PushLink | PushSwap
    // collect
    | CollectTake | CollectLock | CollectNext | CollectLook | CollectErase | CollectFree

  /** For whom a thread is at work on an entry. */
  datatype How = Bind | Wait | Force | Task

  /** entry: what the thread is at work on; seen: the head it read; list, dead:
      the variables of collect, with the entries they lead to. */
  datatype Thread = Thread(
    pc: Pc, entry: nat, how: How, seen: int, list: int, mine: seq<nat>, dead: int, corpses: seq<nat>)

  /** next: nextUnused of every entry; head: of the unused list, which leads to
      the entries of chain. */
  datatype State = State(entries: seq<Entry>, next: seq<int>, head: int, chain: seq<nat>, threads: seq<Thread>)

  /** What an idle thread begins; Fail: the loader throws, or a weak exchange fails. */
  datatype Choice =
    | Go | Fail
    | MakeBind | MakeDirect | MakeFile
    | Copy(e: nat) | Drop(e: nat) | WaitFor(e: nat) | Find(e: nat, how: How)
    | RunTask(e: nat) | DropTask(e: nat) | ReadDone(e: nat, bytes: bool)
    | Collect

  /** Holds every lock of the cache. */
  predicate Locked(pc: Pc) { pc.CollectNext? || pc.CollectLook? || pc.CollectErase? }

  /** Holds a lock of a reader or a shard. */
  predicate InSection(pc: Pc) { pc.FindAdd? || pc.FindTake? }

  /** The thread is done; the count it holds is a handle's. */
  function Finish(en: Entry, l: Thread): (Entry, Thread) { (en.(handles := en.handles + 1), l.(pc := Idle)) }

  function Start(l: Thread, pc: Pc, e: nat, how: How): Thread { l.(pc := pc, entry := e, how := how) }

  /** What an idle thread begins at an entry; open: nobody holds all locks. */
  function BeginStep(en: Entry, l: Thread, c: Choice, open: bool): (Entry, Thread) {
    match c
    case Copy(e) => if en.handles > 0 then (en.(handles := en.handles - 1), Start(l, CopyAdd, e, Bind)) else (en, l)
    case Drop(e) => if en.handles > 0 then (en.(handles := en.handles - 1), Start(l, Release, e, Bind)) else (en, l)
    case WaitFor(e) => if en.handles > 0 then (en.(handles := en.handles - 1), Start(l, WaitClaim, e, Wait)) else (en, l)
    case Find(e, how) => (en, if en.mapped && open && !how.Task? then Start(l, FindAdd, e, how) else l)
    case RunTask(e) => if en.tasks > 0 then (en.(tasks := en.tasks - 1), Start(l, TaskClaim, e, Task)) else (en, l)
    case DropTask(e) => if en.tasks > 0 then (en.(tasks := en.tasks - 1), Start(l, DropClaim, e, Task)) else (en, l)
    case ReadDone(e, bytes) =>
      if en.files > 0 then (en.(files := en.files - 1), Start(l, if bytes then ReadPending else ReadFail, e, Task))
      else (en, l)
    case _ => (en, l)
  }

  predicate InFind(pc: Pc) {
    pc.CopyAdd? || pc.FindAdd? || pc.FindTake? || pc.CountTask? || pc.UnparkStart? || pc.PushTask? || pc.Unpark?
  }

  function FindStep(en: Entry, l: Thread): (Entry, Thread) {
    match l.pc
    case CopyAdd => (en.(count := en.count + 1, handles := en.handles + 2), l.(pc := Idle))
    case FindAdd =>
      var counted := en.(count := en.count + 1);
      if en.parked then (counted, l.(pc := FindTake))
      else if l.how.Bind? then Finish(counted, l)
      else (counted, l.(pc := WaitClaim))
    case FindTake =>
      if en.parked then (en.(parked := false), l.(pc := if l.how.Bind? then CountTask else Unpark))
      else if l.how.Bind? then Finish(en, l)
      else (en, l.(pc := WaitClaim))
    case CountTask => (en.(count := en.count + 1), l.(pc := UnparkStart))
    case UnparkStart => (en.(claimed := false), l.(pc := PushTask))
    case PushTask => Finish(en.(tasks := en.tasks + 1), l)
    case Unpark => (en.(claimed := false), l.(pc := if l.how.Force? then ForceClaim else WaitClaim))
    case _ => (en, l)
  }

  predicate InWait(pc: Pc) {
    pc.WaitClaim? || pc.WaitLook? || pc.RunCount? || pc.RunStore? || pc.RunGive? || pc.RunFree?
  }

  /** One count less; at 0 the entry is marked as queued. */
  function Less(en: Entry): Entry {
    if en.count <= 1 then en.(count := 0, queued := true) else en.(count := en.count - 1)
  }

  /** release, and what follows it unless the thread has to queue the entry. */
  function ReleaseStep(en: Entry, l: Thread, then_: Pc): (Entry, Thread) {
    (Less(en), l.(pc := if en.count <= 1 && !en.queued then PushLoad else then_))
  }

  function WaitStep(en: Entry, l: Thread, c: Choice): (Entry, Thread) {
    match l.pc
    case WaitClaim => if en.claimed then (en, l.(pc := WaitLook)) else (en.(claimed := true), l.(pc := RunCount))
    case WaitLook =>
      if en.state.Loading? then (en, l.(pc := WaitClaim))
      else if l.how.Force? && en.state.Failed? then (en, l.(pc := ForceReset))
      else Finish(en, l)
    case RunCount => (en.(count := en.count + 1), l.(pc := RunStore))
    case RunStore => (en.(state := if c.Fail? then Failed else Ready), l.(pc := RunGive))
    case RunGive => ReleaseStep(en, l, RunFree)
    case RunFree => (en.(pending := false, runs := en.runs + 1), l.(pc := if l.how.Task? then Release else WaitLook))
    case _ => (en, l)
  }

  predicate InTask(pc: Pc) {
    pc.TaskClaim? || pc.TaskPark? || pc.DropClaim? || pc.FailStore? || pc.FailFree? || pc.Release? || pc.ParkRelease?
  }

  function TaskStep(en: Entry, l: Thread, c: Choice): (Entry, Thread) {
    match l.pc
    case TaskClaim => if en.claimed then (en, l.(pc := Release)) else (en.(claimed := true), l.(pc := TaskPark))
    case TaskPark =>
      if en.count != 1 then (en, l.(pc := RunCount))
      else if c.Fail? then (en, l)
      else (en.(parked := true), l.(pc := ParkRelease))
    case DropClaim => if en.claimed then (en, l.(pc := Release)) else (en.(claimed := true), l.(pc := FailStore))
    case FailStore => (en.(state := Failed), l.(pc := FailFree))
    case FailFree => (en.(pending := false, runs := en.runs + 1), l.(pc := Release))
    case Release => ReleaseStep(en, l, Idle)
    case ParkRelease => ReleaseStep(en, l, Idle)
    case _ => (en, l)
  }

  predicate InForce(pc: Pc) {
    pc.ForceClaim? || pc.ForceFree? || pc.ForceCount? || pc.ForceFill? || pc.ForceGive? || pc.ForceReset?
  }

  function ForceStep(en: Entry, l: Thread, c: Choice): (Entry, Thread) {
    match l.pc
    case ForceClaim => if en.claimed then (en, l.(pc := WaitClaim)) else (en.(claimed := true), l.(pc := ForceFree))
    case ForceFree => (en.(pending := false, runs := en.runs + 1), l.(pc := ForceCount))
    case ForceCount => (en.(count := en.count + 1), l.(pc := ForceFill))
    case ForceFill => (en.(state := if c.Fail? then Failed else Ready), l.(pc := ForceGive))
    case ForceGive => (Less(en).(handles := en.handles + 1), l.(pc := if en.count <= 1 && !en.queued then PushLoad else Idle))
    case ForceReset => (en.(state := Loading), l.(pc := ForceCount))
    case _ => (en, l)
  }

  predicate InRead(pc: Pc) {
    pc.DirectFill? || pc.MakeRead? || pc.ReadPending? || pc.ReadUnpark? || pc.ReadPush? || pc.ReadFail?
  }

  function ReadStep(en: Entry, l: Thread, c: Choice): (Entry, Thread) {
    match l.pc
    case DirectFill => Finish(en.(state := if c.Fail? then Failed else Ready), l)
    case MakeRead => Finish(en.(files := en.files + 1), l)
    case ReadPending => (en.(pending := true, left := true), l.(pc := ReadUnpark))
    case ReadUnpark => (en.(claimed := false), l.(pc := ReadPush))
    case ReadPush => (en.(tasks := en.tasks + 1), l.(pc := Idle))
    case ReadFail => (en.(state := Failed), l.(pc := Release))
    case _ => (en, l)
  }

  /** A step that reads and changes one entry and its thread. */
  function WordStep(en: Entry, l: Thread, c: Choice, open: bool): (Entry, Thread) {
    if l.pc.Idle? then BeginStep(en, l, c, open)
    else if InFind(l.pc) then FindStep(en, l)
    else if InWait(l.pc) then WaitStep(en, l, c)
    else if InTask(l.pc) then TaskStep(en, l, c)
    else if InForce(l.pc) then ForceStep(en, l, c)
    else ReadStep(en, l, c)
  }

  predicate InList(pc: Pc) {
    pc.PushLoad? || pc.PushLink? || pc.PushSwap? || pc.CollectTake? || pc.CollectLock? || pc.CollectNext? ||
    pc.CollectLook? || pc.CollectErase? || pc.CollectFree?
  }

  function NextOf(s: State, e: int): int { if 0 <= e < |s.next| then s.next[e] else NONE }

  function Rest(list: seq<nat>): seq<nat> { if list == [] then [] else list[1..] }

  function SetThread(s: State, t: nat, l: Thread): State
    requires t < |s.threads|
  {
    s.(threads := s.threads[t := l])
  }

  /** The push of release, and collect up to the lock. */
  function PushStep(s: State, t: nat, c: Choice, open: bool): State
    requires t < |s.threads|
  {
    var l := s.threads[t];
    match l.pc
    case PushLoad => SetThread(s, t, l.(pc := PushLink, seen := s.head))
    case PushLink =>
      if l.entry < |s.next| then SetThread(s.(next := s.next[l.entry := l.seen]), t, l.(pc := PushSwap)) else s
    case PushSwap =>
      if s.head == l.seen && !c.Fail? then SetThread(s.(head := l.entry, chain := [l.entry] + s.chain), t, l.(pc := Idle))
      else SetThread(s, t, l.(pc := PushLink, seen := s.head))
    case CollectTake =>
      SetThread(s.(head := NONE, chain := []), t,
                if s.head == NONE then l.(pc := Idle) else l.(pc := CollectLock, list := s.head, mine := s.chain))
    case CollectLock => SetThread(s, t, if open then l.(pc := CollectNext) else l)
    case _ => s
  }

  /** collect, under the locks and after them. */
  function CollectStep(s: State, t: nat): State
    requires t < |s.threads|
  {
    var l := s.threads[t];
    match l.pc
    case CollectNext =>
      SetThread(s, t, if l.list == NONE then l.(pc := CollectFree)
                      else if l.list < 0 then l
                      else l.(pc := CollectLook, entry := l.list, list := NextOf(s, l.list), mine := Rest(l.mine)))
    case CollectLook =>
      if l.entry >= |s.entries| then s
      else if s.entries[l.entry].count == 0 then SetThread(s, t, l.(pc := CollectErase))
      else SetThread(s.(entries := s.entries[l.entry := s.entries[l.entry].(queued := false)]), t, l.(pc := CollectNext))
    case CollectErase =>
      if l.entry >= |s.entries| || l.entry >= |s.next| then s
      else
        SetThread(s.(entries := s.entries[l.entry := s.entries[l.entry].(mapped := false)],
                     next := s.next[l.entry := l.dead]), t,
                  l.(pc := CollectNext, dead := l.entry, corpses := [l.entry] + l.corpses))
    case CollectFree =>
      if l.dead < 0 || l.dead >= |s.entries| then SetThread(s, t, l.(pc := Idle))
      else
        SetThread(s.(entries := s.entries[l.dead := Freed(s.entries[l.dead])]), t,
                  l.(dead := NextOf(s, l.dead), corpses := Rest(l.corpses)))
    case _ => s
  }

  /** destroy: a load parked in the entry is freed with it. */
  function Freed(en: Entry): Entry {
    if en.parked then en.(freed := true, parked := false, pending := false, runs := en.runs + 1) else en.(freed := true)
  }

  const BOUND: Entry := Entry(2, false, false, false, Loading, true, true, false, 0, 0, 0, true, 0)
  const LOADED: Entry := Entry(1, false, false, true, Loading, false, true, false, 0, 0, 0, false, 0)
  const READ: Entry := Entry(2, false, false, true, Loading, false, true, false, 0, 0, 0, false, 0)

  /** A new entry of bind, of load or forceLoad, or of bind with a file. */
  function MakeStep(s: State, t: nat, c: Choice): State
    requires t < |s.threads|
  {
    var l := s.threads[t];
    s.(entries := s.entries + [if c.MakeBind? then BOUND else if c.MakeDirect? then LOADED else READ],
       next := s.next + [NONE],
       threads := s.threads[t := Start(l, if c.MakeBind? then PushTask else if c.MakeDirect? then DirectFill else MakeRead,
                                       |s.entries|, Bind)])
  }

  predicate Makes(c: Choice) { c.MakeBind? || c.MakeDirect? || c.MakeFile? }

  /** Which entry a step is at. */
  function At(l: Thread, c: Choice): nat {
    if !l.pc.Idle? then l.entry
    else if c.Copy? || c.Drop? || c.WaitFor? || c.Find? || c.RunTask? || c.DropTask? || c.ReadDone? then c.e
    else l.entry
  }

  /** One step of thread t. */
  function Step(s: State, t: nat, c: Choice): State
    requires t < |s.threads|
  {
    var l := s.threads[t];
    var open := forall u | 0 <= u < |s.threads| :: !Locked(s.threads[u].pc);
    var shut := exists u :: 0 <= u < |s.threads| && InSection(s.threads[u].pc);
    if l.pc.Idle? && c.Collect? then SetThread(s, t, l.(pc := CollectTake))
    else if l.pc.Idle? && Makes(c) then (if open then MakeStep(s, t, c) else s)
    else if InList(l.pc) then
      (if Locked(l.pc) || l.pc.CollectFree? then CollectStep(s, t) else PushStep(s, t, c, open && !shut))
    else if At(l, c) >= |s.entries| then s
    else
      var (en, l') := WordStep(s.entries[At(l, c)], l, c, open);
      s.(entries := s.entries[At(l, c) := en], threads := s.threads[t := l'])
  }
}
