/** What every step of the loops of the pool keeps. */
module TicketInvariant {
  import opened Options
  import opened Counting
  import opened Tickets

  // --- what a program counter says ------------------------------------------

  /** The owner of a loop, which has not returned. */
  predicate OwnsJob(l: Thread) { !l.helper && !l.pc.Idle? }

  /** The owner of a loop that has a slot. */
  predicate HasSlot(l: Thread) { OwnsJob(l) && (l.shared || l.pc.StoreJob?) && !l.pc.TakeSlot? && !l.pc.Return? }

  predicate IsInside(l: Thread) { l.helper && (l.pc.ReadJob? || l.pc.Next? || l.pc.Call? || l.pc.Leave?) }

  predicate LocalOk(slots: nat, jobs: nat, l: Thread) {
    && (!l.pc.Idle? ==> l.job < jobs && l.slot < slots)
    && (l.pc.Enter? || l.pc.ReadJob? || l.pc.Leave? ==> l.helper)
    && (l.helper ==> l.pc.Idle? || l.pc.Enter? || IsInside(l))
    && (OwnsJob(l) && !l.pc.TakeSlot? && !l.pc.Next? && !l.pc.Call? && !l.pc.Return? ==> l.shared)
    && ((l.pc.TakeSlot? || l.pc.Return?) ==> !l.shared)
  }

  /** How far the owner is says what its slot is. */
  predicate OwnerOk(slot: Slot, l: Thread) {
    && slot.used && slot.tenant == Some(l.job)
    && slot.open == !(l.pc.StoreJob? || l.pc.Unuse? || l.pc.ClearJob? || l.pc.Release?)
    && slot.live == (l.pc.Next? || l.pc.Call? || l.pc.Bump?)
    && (l.pc.Issue? || slot.live ==> slot.generation == l.generation)
    && (l.pc.LoadState? || l.pc.Issue? || l.pc.Unstore? ==> slot.inside == 0)
  }

  predicate SlotOk(slot: Slot) {
    && (!slot.used ==> slot.tenant == None && !slot.open && !slot.live)
    && (slot.live ==> slot.open)
    && (slot.open ==> slot.job == slot.tenant && slot.tenant.Some?)
    && (slot.inside > 0 ==> slot.open)
  }

  /** A ticket of the generation of its slot names its tenant; any other is void. */
  predicate TicketOk(slots: seq<Slot>, ticket: Ticket) {
    && ticket.slot < |slots| && ticket.generation <= slots[ticket.slot].generation
    && (ticket.generation == slots[ticket.slot].generation ==>
          slots[ticket.slot].live && slots[ticket.slot].tenant == Some(ticket.job))
  }

  function TicketOf(l: Thread): Ticket { Ticket(l.slot, l.generation, l.job) }

  ghost predicate Threads(s: State) {
    forall t | 0 <= t < |s.threads| :: ThreadOk(s, s.threads[t])
  }

  predicate ThreadOk(s: State, l: Thread) {
    && LocalOk(|s.slots|, |s.jobs|, l)
    && (HasSlot(l) ==> OwnerOk(s.slots[l.slot], l))
    && (OwnsJob(l) ==> s.jobs[l.job].alive)
    && (l.pc.Enter? ==> TicketOk(s.slots, TicketOf(l)))
    && (IsInside(l) ==> s.slots[l.slot].open && s.slots[l.slot].tenant == Some(l.job))
    && (OwnsJob(l) && (l.pc.Bump? || l.pc.Wait? || l.pc.ClearJob? || l.pc.Release? || l.pc.Return?) ==>
          s.jobs[l.job].next >= s.jobs[l.job].count)
  }

  ghost predicate Owners(s: State) {
    forall t, u | 0 <= t < |s.threads| && 0 <= u < |s.threads| && t != u && OwnsJob(s.threads[t]) && OwnsJob(s.threads[u]) ::
      s.threads[t].job != s.threads[u].job
  }

  function InsideWeight(k: nat): Thread -> nat { (l: Thread) => if IsInside(l) && l.slot == k then 1 else 0 }

  predicate Tenants(l: Thread, k: nat, job: nat) { HasSlot(l) && l.slot == k && l.job == job }

  ghost predicate Slots(s: State) {
    && (forall k | 0 <= k < |s.slots| :: SlotOk(s.slots[k]) && s.slots[k].inside == Sum(InsideWeight(k), s.threads))
    && (forall k | 0 <= k < |s.slots| && s.slots[k].tenant.Some? ::
          exists t :: 0 <= t < |s.threads| && Tenants(s.threads[t], k, s.slots[k].tenant.value))
  }

  ghost predicate TicketsOk(s: State) {
    forall i | 0 <= i < |s.tickets| :: TicketOk(s.slots, s.tickets[i]) && s.tickets[i].job < |s.jobs|
  }

  /** The chunks follow one another from 0 on, up to the next one. */
  predicate JobOk(job: Job) {
    && 0 < job.grain < job.count
    && (forall i | 0 <= i < |job.calls| :: job.calls[i] < job.count)
    && (job.calls != [] ==> job.calls[0] == 0)
    && (forall i | 0 < i < |job.calls| :: job.calls[i] == job.calls[i - 1] + job.grain)
    && (if job.failed then job.next >= job.count
        else if job.calls == [] then job.next == 0
        else var after := job.calls[|job.calls| - 1] + job.grain; job.next >= after && (job.next == after || after >= job.count))
  }

  predicate Calls(l: Thread, j: nat, first: nat) { l.pc.Call? && l.job == j && l.first == first }

  ghost predicate Jobs(s: State) {
    && (forall j | 0 <= j < |s.jobs| :: JobOk(s.jobs[j]))
    && (forall t | 0 <= t < |s.threads| && s.threads[t].pc.Call? && s.threads[t].job < |s.jobs| ::
          s.threads[t].first in s.jobs[s.threads[t].job].calls)
    && (forall j, f | 0 <= j < |s.jobs| && !s.jobs[j].failed && f in s.jobs[j].calls && f !in s.jobs[j].done ::
          exists t :: 0 <= t < |s.threads| && Calls(s.threads[t], j, f))
  }

  ghost predicate Inv(s: State) {
    Threads(s) && Owners(s) && Slots(s) && TicketsOk(s) && Jobs(s)
  }

  // --- a step at a slot, as its thread sees it ------------------------------

  /** What a step at slot k does, as far as others rely on it. */
  predicate SlotEffect(slot: Slot, l: Thread, slot': Slot, l': Thread) {
    && SlotOk(slot')
    && slot.generation <= slot'.generation
    && slot'.inside + (if IsInside(l) then 1 else 0) == slot.inside + (if IsInside(l') then 1 else 0)
    && l'.job == l.job && l'.helper == l.helper
    && (slot'.tenant == slot.tenant || HasSlot(l) || (slot.tenant == None && slot'.tenant == Some(l.job) && HasSlot(l')))
    && (slot'.tenant.Some? && HasSlot(l) ==> HasSlot(l') && slot'.tenant == slot.tenant)
    && (!HasSlot(l) && slot.tenant.Some? ==> slot' == slot.(inside := slot'.inside))
    && (slot.open && !slot'.open ==> slot.inside == 0)
    && (!slot.live && slot.inside == 0 && !HasSlot(l) ==> slot'.inside == 0)
    && (slot.live && !slot'.live ==> slot'.generation == slot.generation + 1)
    && (slot'.generation != slot.generation ==> slot.live)
    && (slot'.live && !slot.live ==> slot'.generation == slot.generation && HasSlot(l) && l.generation == slot.generation)
  }

  predicate OwnEffect(slot': Slot, l': Thread) {
    && (HasSlot(l') ==> OwnerOk(slot', l'))
    && (IsInside(l') ==> slot'.open && slot'.tenant == Some(l'.job))
    && (OwnsJob(l') ==> !l'.pc.Call?)
  }

  predicate MayStep(slot: Slot, l: Thread) {
    && SlotOk(slot) && AtSlot(l.pc) && LocalOk(l.slot + 1, l.job + 1, l)
    && (HasSlot(l) ==> OwnerOk(slot, l))
    && (IsInside(l) ==> slot.open && slot.tenant == Some(l.job) && slot.inside > 0)
    && (l.pc.Enter? && l.generation == slot.generation ==> slot.live && slot.tenant == Some(l.job))
  }

  lemma SlotStepEffects(slot: Slot, l: Thread, c: Choice)
    requires MayStep(slot, l)
    ensures var (slot', l') := SlotStep(slot, l, c); SlotEffect(slot, l, slot', l')
  {}

  lemma SlotStepOwn(slot: Slot, l: Thread, c: Choice)
    requires MayStep(slot, l)
    ensures var (slot', l') := SlotStep(slot, l, c); OwnEffect(slot', l') && LocalOk(l.slot + 1, l.job + 1, l') && !l'.pc.Call?
  {}

  // --- a step at a slot, among all ------------------------------------------

  ghost predicate SlotStepped(s: State, t: nat, k: nat, slot: Slot, l: Thread, s': State) {
    && t < |s.threads| && k < |s.slots|
    && var l0 := s.threads[t];
    && s'.slots == s.slots[k := slot] && s'.jobs == s.jobs && s'.threads == s.threads[t := l]
    && (l0.slot == k || (!HasSlot(l0) && !IsInside(l0))) && (l.slot == k || (!HasSlot(l) && !IsInside(l)))
    && SlotEffect(s.slots[k], l0, slot, l) && OwnEffect(slot, l)
  }

  lemma TicketStays(slots: seq<Slot>, k: nat, slot: Slot, l: Thread, l': Thread, ticket: Ticket)
    requires k < |slots| && TicketOk(slots, ticket) && SlotOk(slots[k]) && SlotEffect(slots[k], l, slot, l')
    ensures TicketOk(slots[k := slot], ticket)
  {}

  /** What another thread relies on at its slot does not change under it. */
  lemma OtherStays(s: State, t: nat, k: nat, slot: Slot, l: Thread, s': State, u: nat)
    requires SlotStepped(s, t, k, slot, l, s') && u < |s.threads| && u != t
    requires ThreadOk(s, s.threads[t]) && ThreadOk(s, s.threads[u]) && SlotOk(s.slots[k])
    requires OwnsJob(s.threads[t]) && OwnsJob(s.threads[u]) ==> s.threads[t].job != s.threads[u].job
    requires IsInside(s.threads[u]) && s.threads[u].slot == k ==> s.slots[k].inside > Bool(IsInside(s.threads[t]))
    ensures ThreadOk(s', s.threads[u])
  {
    var m := s.threads[u];
    if m.pc.Enter? {
      TicketStays(s.slots, k, slot, s.threads[t], l, TicketOf(m));
    }
  }

  lemma InsideOfTwo(s: State, t: nat, u: nat)
    requires Slots(s) && t < |s.threads| && u < |s.threads| && t != u && IsInside(s.threads[u]) && s.threads[u].slot < |s.slots|
    ensures s.slots[s.threads[u].slot].inside > Bool(IsInside(s.threads[t]) && s.threads[t].slot == s.threads[u].slot)
  {
    SumAtLeastTwo(InsideWeight(s.threads[u].slot), s.threads, if t < u then t else u, if t < u then u else t);
  }

  lemma SlotStepThreads(s: State, t: nat, k: nat, slot: Slot, l: Thread, s': State)
    requires Inv(s) && SlotStepped(s, t, k, slot, l, s') && ThreadOk(s', l)
    ensures Threads(s')
  {
    forall u | 0 <= u < |s'.threads| ensures ThreadOk(s', s'.threads[u]) {
      assert ThreadOk(s, s.threads[u]) && ThreadOk(s, s.threads[t]);
      if u != t {
        if IsInside(s.threads[u]) {
          InsideOfTwo(s, t, u);
        }
        OtherStays(s, t, k, slot, l, s', u);
      }
    }
  }

  lemma SlotStepOwners(s: State, t: nat, k: nat, slot: Slot, l: Thread, s': State)
    requires Owners(s) && SlotStepped(s, t, k, slot, l, s') && (OwnsJob(l) ==> OwnsJob(s.threads[t]))
    ensures Owners(s')
  {}

  lemma SlotStepSlots(s: State, t: nat, k: nat, slot: Slot, l: Thread, s': State)
    requires Slots(s) && Threads(s) && SlotStepped(s, t, k, slot, l, s')
    ensures Slots(s')
  {
    forall i | 0 <= i < |s'.slots| ensures SlotOk(s'.slots[i]) && s'.slots[i].inside == Sum(InsideWeight(i), s'.threads) {
      SumUpdate(InsideWeight(i), s.threads, t, l);
    }
    assert ThreadOk(s, s.threads[t]);
    forall i | 0 <= i < |s'.slots| && s'.slots[i].tenant.Some?
      ensures exists u :: 0 <= u < |s'.threads| && Tenants(s'.threads[u], i, s'.slots[i].tenant.value)
    {
      if i == k && HasSlot(l) && slot.tenant == Some(l.job) {
        assert Tenants(s'.threads[t], i, l.job);
      } else {
        var u :| 0 <= u < |s.threads| && Tenants(s.threads[u], i, s.slots[i].tenant.value);
        assert s'.threads[u] == s.threads[u];
      }
    }
  }

  lemma SlotStepTickets(s: State, t: nat, k: nat, slot: Slot, l: Thread, s': State)
    requires Slots(s) && TicketsOk(s) && SlotStepped(s, t, k, slot, l, s')
    requires s'.tickets == s.tickets + if slot.live && !s.slots[k].live then [Ticket(k, slot.generation, l.job)] else []
    requires HasSlot(l) && l.slot == k && slot.live ==> slot.tenant == Some(l.job)
    requires slot.live && !s.slots[k].live ==> HasSlot(l) && l.slot == k && l.job < |s.jobs|
    ensures TicketsOk(s')
  {
    forall i | 0 <= i < |s'.tickets| ensures TicketOk(s'.slots, s'.tickets[i]) && s'.tickets[i].job < |s'.jobs| {
      if i < |s.tickets| {
        TicketStays(s.slots, k, slot, s.threads[t], l, s.tickets[i]);
      }
    }
  }

  lemma SlotStepJobs(s: State, t: nat, k: nat, slot: Slot, l: Thread, s': State)
    requires Jobs(s) && SlotStepped(s, t, k, slot, l, s') && !l.pc.Call? && !s.threads[t].pc.Call?
    ensures Jobs(s')
  {
    forall j, f | 0 <= j < |s'.jobs| && !s'.jobs[j].failed && f in s'.jobs[j].calls && f !in s'.jobs[j].done
      ensures exists u :: 0 <= u < |s'.threads| && Calls(s'.threads[u], j, f)
    {
      var u :| 0 <= u < |s.threads| && Calls(s.threads[u], j, f);
      assert s'.threads[u] == s.threads[u];
    }
  }

  // --- a step at a job ------------------------------------------------------

  predicate JobEffect(job: Job, l: Thread, job': Job, l': Thread) {
    JobOk(job') && CallEffect(job, l, job', l') && RunEffect(job, l, job', l')
  }

  predicate RunEffect(job: Job, l: Thread, job': Job, l': Thread) {
    && job'.count == job.count && job'.next >= (if job.next < job.count then job.next else job.count)
    && l'.job == l.job && l'.helper == l.helper && l'.slot == l.slot && l'.generation == l.generation && l'.shared == l.shared
    && IsInside(l') == IsInside(l) && HasSlot(l') == HasSlot(l) && (OwnsJob(l') ==> OwnsJob(l))
    && (job'.alive == job.alive || (l.pc.Return? && l'.pc.Idle?))
    && (OwnsJob(l') && (l'.pc.Bump? || l'.pc.Return?) ==> job'.next >= job'.count)
    && (OwnsJob(l') ==> l'.pc.Next? || l'.pc.Call? || l'.pc.Bump? || l'.pc.Return?)
    && (HasSlot(l') ==> l'.pc.Next? || l'.pc.Call? || l'.pc.Bump?)
  }

  predicate CallEffect(job: Job, l: Thread, job': Job, l': Thread) {
    && job.calls <= job'.calls && job.done <= job'.done
    && (forall f | f in job'.calls && f !in job.calls :: l'.pc.Call? && l'.first == f)
    && (l'.pc.Call? ==> l'.first in job'.calls)
    && (l.pc.Call? && !job'.failed ==> l.first in job'.done)
    && (!job'.failed ==> !job.failed)
  }

  lemma JobStepOk(job: Job, l: Thread, c: Choice)
    requires JobOk(job) && AtJob(l.pc)
    ensures JobOk(JobStep(job, l, c).0)
  {
    if l.pc.Next? && job.next < job.count {
      NextChunkOk(job);
    }
  }

  lemma NextChunkOk(job: Job)
    requires JobOk(job) && job.next < job.count
    ensures JobOk(job.(next := job.next + job.grain, calls := job.calls + [job.next]))
  {
    var calls := job.calls + [job.next];
    assert !job.failed && (job.calls != [] ==> job.next == job.calls[|job.calls| - 1] + job.grain);
    forall i | 0 < i < |calls| ensures calls[i] == calls[i - 1] + job.grain {}
  }

  lemma JobStepCalls(job: Job, l: Thread, c: Choice)
    requires AtJob(l.pc) && (l.pc.Call? ==> l.first in job.calls)
    ensures var (job', l') := JobStep(job, l, c); CallEffect(job, l, job', l')
  {
    var job' := JobStep(job, l, c).0;
    if l.pc.Next? && job'.calls != job.calls {
      assert job'.calls == job.calls + [job.next] && job'.calls[|job.calls|] == job.next;
    }
  }

  lemma JobStepRuns(job: Job, l: Thread, c: Choice)
    requires JobOk(job) && AtJob(l.pc) && LocalOk(l.slot + 1, l.job + 1, l)
    requires l.pc.Return? ==> job.next >= job.count
    ensures var (job', l') := JobStep(job, l, c); RunEffect(job, l, job', l') && LocalOk(l.slot + 1, l.job + 1, l')
  {}

  lemma JobStepEffects(job: Job, l: Thread, c: Choice)
    requires JobOk(job) && AtJob(l.pc) && LocalOk(l.slot + 1, l.job + 1, l) && (l.pc.Call? ==> l.first in job.calls)
    requires l.pc.Return? ==> job.next >= job.count
    ensures var (job', l') := JobStep(job, l, c); JobEffect(job, l, job', l') && LocalOk(l.slot + 1, l.job + 1, l')
  {
    JobStepOk(job, l, c);
    JobStepCalls(job, l, c);
    JobStepRuns(job, l, c);
  }

  ghost predicate JobStepped(s: State, t: nat, job: Job, l: Thread, s': State) {
    && t < |s.threads| && s.threads[t].job < |s.jobs|
    && s'.slots == s.slots && s'.tickets == s.tickets
    && s'.jobs == s.jobs[s.threads[t].job := job] && s'.threads == s.threads[t := l]
    && JobEffect(s.jobs[s.threads[t].job], s.threads[t], job, l) && LocalOk(l.slot + 1, l.job + 1, l)
    && AtJob(s.threads[t].pc)
  }

  lemma JobStepThreads(s: State, t: nat, job: Job, l: Thread, s': State)
    requires Threads(s) && Owners(s) && JobStepped(s, t, job, l, s')
    ensures Threads(s') && Owners(s')
  {
    var l0 := s.threads[t];
    assert ThreadOk(s, l0);
    forall u | 0 <= u < |s'.threads| ensures ThreadOk(s', s'.threads[u]) {
      assert ThreadOk(s, s.threads[u]);
    }
  }

  lemma JobStepSlots(s: State, t: nat, job: Job, l: Thread, s': State)
    requires Slots(s) && JobStepped(s, t, job, l, s')
    ensures Slots(s')
  {
    forall i | 0 <= i < |s'.slots| ensures s'.slots[i].inside == Sum(InsideWeight(i), s'.threads) {
      SumUpdate(InsideWeight(i), s.threads, t, l);
    }
    forall i | 0 <= i < |s'.slots| && s'.slots[i].tenant.Some?
      ensures exists u :: 0 <= u < |s'.threads| && Tenants(s'.threads[u], i, s'.slots[i].tenant.value)
    {
      var u :| 0 <= u < |s.threads| && Tenants(s.threads[u], i, s.slots[i].tenant.value);
      assert Tenants(s'.threads[u], i, s'.slots[i].tenant.value);
    }
  }

  lemma JobStepJobs(s: State, t: nat, job: Job, l: Thread, s': State)
    requires Jobs(s) && JobStepped(s, t, job, l, s')
    ensures Jobs(s')
  {
    forall j, f | 0 <= j < |s'.jobs| && !s'.jobs[j].failed && f in s'.jobs[j].calls && f !in s'.jobs[j].done
      ensures exists u :: 0 <= u < |s'.threads| && Calls(s'.threads[u], j, f)
    {
      if j == l.job && f !in s.jobs[j].calls {
        assert Calls(s'.threads[t], j, f);
      } else {
        var u :| 0 <= u < |s.threads| && Calls(s.threads[u], j, f);
        assert Calls(s'.threads[u], j, f);
      }
    }
  }
}
