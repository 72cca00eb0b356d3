/**
 The loops of the pool (backend.cpp, parallel_for.hpp): a loop takes a slot,
 hands out tickets that name the slot and its generation, and every thread that
 gets in takes chunks of the items. Any number of threads run loops and use
 tickets, also old ones, one step per access to an atomic. Generations are
 unbounded, and next does not wrap.
 */
module Tickets {
  import opened Options

  /** generation and inside are the word state. tenant: the job of the loop that
      has the slot; open: whoever is inside finds that job; live: a ticket of
      its generation is out. */
  datatype Slot = Slot(
    used: bool, generation: nat, inside: nat, job: Option<nat>, tenant: Option<nat>, open: bool, live: bool)

  datatype Ticket = Ticket(slot: nat, generation: nat, job: nat)

  /** calls: the first items of the chunks the function was called with, in the
      order they were taken; done: those of the calls that returned; alive: the
      loop has not returned. */
  datatype Job = Job(count: nat, grain: nat, next: nat, failed: bool, calls: seq<nat>, done: set<nat>, alive: bool)

  datatype Pc =
    | Idle
    // shareParallel
    | TakeSlot | StoreJob | LoadState | Issue | Unstore | Unuse
    // job.run
    | Next | Call
    // finishParallel
    | Bump | Wait | ClearJob | Release | Return
    // joinParallel
    | Enter | ReadJob | Leave

  /** helper: in joinParallel with the ticket; else the owner of job, with a
      slot of its own if shared. first: of the chunk it has. */
  datatype Thread = Thread(pc: Pc, helper: bool, job: nat, shared: bool, slot: nat, tried: nat, generation: nat, first: nat)

  datatype State = State(slots: seq<Slot>, jobs: seq<Job>, tickets: seq<Ticket>, threads: seq<Thread>)

  /** What an idle thread begins: a loop, at the slot of the thread, or the use
      of a ticket. Fail: the call throws, no ticket could be pushed, or a helper stops. */
  datatype Choice = Go | Fail | Loop(count: nat, grain: nat, place: nat) | Join(ticket: nat)

  function SetThread(s: State, t: nat, l: Thread): State
    requires t < |s.threads|
  {
    s.(threads := s.threads[t := l])
  }

  /** A step of the owner at its slot. */
  function SlotStep(slot: Slot, l: Thread, c: Choice): (Slot, Thread) {
    match l.pc
    case TakeSlot =>
      if slot.used then (slot, l.(tried := l.tried + 1))
      else (slot.(used := true, tenant := Some(l.job)), l.(pc := StoreJob, shared := true))
    case StoreJob => (slot.(job := Some(l.job), open := true), l.(pc := LoadState))
    case LoadState => (slot, l.(pc := Issue, generation := slot.generation))
    case Issue => if c.Fail? then (slot, l.(pc := Unstore)) else (slot.(live := true), l.(pc := Next))
    case Unstore => (slot.(job := None, open := false), l.(pc := Unuse))
    case Unuse => (slot.(used := false, tenant := None), l.(pc := Next, shared := false))
    case Bump => (slot.(generation := slot.generation + 1, live := false), l.(pc := Wait))
    case Wait => if slot.inside != 0 then (slot, l) else (slot.(open := false), l.(pc := ClearJob))
    case ClearJob => (slot.(job := None), l.(pc := Release))
    case Release => (slot.(used := false, tenant := None), l.(pc := Return, shared := false))
    case Enter =>
      if slot.generation != l.generation then (slot, l.(pc := Idle)) else (slot.(inside := slot.inside + 1), l.(pc := ReadJob))
    case ReadJob => (slot, l.(pc := Next, job := match slot.job case Some(j) => j case None => l.job))
    case Leave => (slot.(inside := if slot.inside > 0 then slot.inside - 1 else 0), l.(pc := Idle))
    case _ => (slot, l)
  }

  predicate AtSlot(pc: Pc) { !pc.Idle? && !pc.Next? && !pc.Call? && !pc.Return? }

  /** A step of whoever runs the job: the next chunk, the call for it. */
  function JobStep(job: Job, l: Thread, c: Choice): (Job, Thread) {
    var over := if l.helper then Leave else if l.shared then Bump else Return;
    match l.pc
    case Next =>
      if l.helper && c.Fail? then (job, l.(pc := over))
      else
        (job.(next := job.next + job.grain, calls := if job.next < job.count then job.calls + [job.next] else job.calls),
         if job.next < job.count then l.(pc := Call, first := job.next) else l.(pc := over))
    case Call =>
      if c.Fail? then (job.(failed := true, next := job.count), l.(pc := over))
      else (job.(done := job.done + {l.first}), l.(pc := Next))
    case Return => (job.(alive := false), l.(pc := Idle))
    case _ => (job, l)
  }

  predicate AtJob(pc: Pc) { pc.Next? || pc.Call? || pc.Return? }

  /** A loop of more than one chunk, or the use of a ticket. */
  function BeginStep(s: State, t: nat, c: Choice): State
    requires t < |s.threads|
  {
    var l := s.threads[t];
    if c.Loop? && c.grain > 0 && c.count > c.grain && |s.slots| > 0 then
      s.(jobs := s.jobs + [Job(c.count, c.grain, 0, false, [], {}, true)],
         threads := s.threads[t := Thread(TakeSlot, false, |s.jobs|, false, c.place % |s.slots|, 0, 0, 0)])
    else if c.Join? && c.ticket < |s.tickets| then
      var ticket := s.tickets[c.ticket];
      SetThread(s, t, Thread(Enter, true, ticket.job, false, ticket.slot, 0, ticket.generation, 0))
    else s
  }

  /** One step of thread t. */
  function Step(s: State, t: nat, c: Choice): State
    requires t < |s.threads|
  {
    var l := s.threads[t];
    if l.pc.Idle? then BeginStep(s, t, c)
    else if AtJob(l.pc) then
      if l.job >= |s.jobs| then s
      else
        var (job, l') := JobStep(s.jobs[l.job], l, c);
        s.(jobs := s.jobs[l.job := job], threads := s.threads[t := l'])
    else if l.pc.TakeSlot? && l.tried >= |s.slots| then SetThread(s, t, l.(pc := Next))
    else
      var k := if l.pc.TakeSlot? && |s.slots| > 0 then (l.slot + l.tried) % |s.slots| else l.slot;
      if k >= |s.slots| then s
      else
        var (slot, l') := SlotStep(s.slots[k], l, c);
        s.(slots := s.slots[k := slot], threads := s.threads[t := if l'.pc.StoreJob? then l'.(slot := k) else l'],
           tickets := s.tickets + if slot.live && !s.slots[k].live then [Ticket(k, slot.generation, l.job)] else [])
  }
}
