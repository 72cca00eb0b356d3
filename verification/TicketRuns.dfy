/** What holds in every run of the loops of the pool. */
module TicketRuns {
  import opened Options
  import opened Counting
  import opened Tickets
  import opened TicketInvariant

  // --- every step -----------------------------------------------------------

  lemma SlotStepKeeps(s: State, t: nat, k: nat, slot: Slot, l: Thread, s': State)
    requires Inv(s) && SlotStepped(s, t, k, slot, l, s') && ThreadOk(s', l) && (OwnsJob(l) ==> OwnsJob(s.threads[t]))
    requires s'.tickets == s.tickets + if slot.live && !s.slots[k].live then [Ticket(k, slot.generation, l.job)] else []
    requires HasSlot(l) && l.slot == k && slot.live ==> slot.tenant == Some(l.job)
    requires slot.live && !s.slots[k].live ==> HasSlot(l) && l.slot == k
    requires !l.pc.Call? && !s.threads[t].pc.Call?
    ensures Inv(s')
  {
    SlotStepThreads(s, t, k, slot, l, s');
    SlotStepOwners(s, t, k, slot, l, s');
    SlotStepSlots(s, t, k, slot, l, s');
    SlotStepTickets(s, t, k, slot, l, s');
    SlotStepJobs(s, t, k, slot, l, s');
  }

  lemma InsideIsCounted(s: State, t: nat)
    requires Slots(s) && t < |s.threads| && s.threads[t].slot < |s.slots| && IsInside(s.threads[t])
    ensures s.slots[s.threads[t].slot].inside > 0
  {
    SumAtLeast(InsideWeight(s.threads[t].slot), s.threads, t);
  }

  lemma StepMay(s: State, t: nat)
    requires Threads(s) && Slots(s) && t < |s.threads| && AtSlot(s.threads[t].pc) && !s.threads[t].pc.TakeSlot?
    ensures s.threads[t].slot < |s.slots| && MayStep(s.slots[s.threads[t].slot], s.threads[t])
  {
    assert ThreadOk(s, s.threads[t]);
    if IsInside(s.threads[t]) {
      InsideIsCounted(s, t);
    }
  }

  /** What the thread relies on after its own step at a slot. */
  lemma OwnThread(s: State, t: nat, c: Choice)
    requires t < |s.threads| && ThreadOk(s, s.threads[t]) && AtSlot(s.threads[t].pc) && !s.threads[t].pc.TakeSlot?
    requires s.threads[t].slot < |s.slots| && MayStep(s.slots[s.threads[t].slot], s.threads[t])
    ensures ThreadOk(Step(s, t, c), Step(s, t, c).threads[t])
  {
    SlotStepOwn(s.slots[s.threads[t].slot], s.threads[t], c);
    SlotStepEffects(s.slots[s.threads[t].slot], s.threads[t], c);
  }

  lemma AtSlotKeeps(s: State, t: nat, c: Choice)
    requires Inv(s) && t < |s.threads| && AtSlot(s.threads[t].pc) && !s.threads[t].pc.TakeSlot?
    ensures Inv(Step(s, t, c))
  {
    var l, k := s.threads[t], s.threads[t].slot;
    StepMay(s, t);
    assert ThreadOk(s, l);
    var (slot, l') := SlotStep(s.slots[k], l, c);
    SlotStepEffects(s.slots[k], l, c);
    SlotStepOwn(s.slots[k], l, c);
    OwnThread(s, t, c);
    SlotStepKeeps(s, t, k, slot, l', Step(s, t, c));
  }

  lemma TakeSlotEffect(slot: Slot, l: Thread, k: nat, c: Choice)
    requires SlotOk(slot) && l.pc.TakeSlot? && LocalOk(l.slot + 1, l.job + 1, l)
    ensures var (slot', l') := SlotStep(slot, l, c); var m := if l'.pc.StoreJob? then l'.(slot := k) else l';
      SlotEffect(slot, l, slot', m) && OwnEffect(slot', m) && slot'.live == slot.live
  {}

  lemma TakeSlotKeeps(s: State, t: nat, c: Choice)
    requires Inv(s) && t < |s.threads| && s.threads[t].pc.TakeSlot? && s.threads[t].tried < |s.slots|
    ensures Inv(Step(s, t, c))
  {
    var l := s.threads[t];
    assert ThreadOk(s, l);
    var k := (l.slot + l.tried) % |s.slots|;
    TakeSlotEffect(s.slots[k], l, k, c);
    var s' := Step(s, t, c);
    SlotStepKeeps(s, t, k, s'.slots[k], s'.threads[t], s');
  }

  lemma AloneKeeps(s: State, t: nat, c: Choice)
    requires Inv(s) && t < |s.threads| && s.threads[t].pc.TakeSlot? && s.threads[t].tried >= |s.slots|
    ensures Inv(Step(s, t, c))
  {
    var l := s.threads[t];
    assert ThreadOk(s, l);
    assert s.slots == s.slots[l.slot := s.slots[l.slot]];
    SlotStepKeeps(s, t, l.slot, s.slots[l.slot], l.(pc := Next), Step(s, t, c));
  }

  lemma AtJobKeeps(s: State, t: nat, c: Choice)
    requires Inv(s) && t < |s.threads| && AtJob(s.threads[t].pc)
    ensures Inv(Step(s, t, c))
  {
    var l := s.threads[t];
    assert ThreadOk(s, l);
    var (job, l') := JobStep(s.jobs[l.job], l, c);
    JobStepEffects(s.jobs[l.job], l, c);
    var s' := Step(s, t, c);
    JobStepThreads(s, t, job, l', s');
    JobStepSlots(s, t, job, l', s');
    JobStepJobs(s, t, job, l', s');
  }

  /** A step of an idle thread to something that is at no slot yet. */
  lemma BeginSlots(s: State, t: nat, l: Thread, s': State)
    requires Slots(s) && t < |s.threads| && s.threads[t].pc.Idle? && s'.slots == s.slots && s'.threads == s.threads[t := l]
    requires !HasSlot(l) && !IsInside(l)
    ensures Slots(s')
  {
    forall k | 0 <= k < |s'.slots| ensures s'.slots[k].inside == Sum(InsideWeight(k), s'.threads) {
      SumUpdate(InsideWeight(k), s.threads, t, l);
    }
    forall k | 0 <= k < |s'.slots| && s'.slots[k].tenant.Some?
      ensures exists u :: 0 <= u < |s'.threads| && Tenants(s'.threads[u], k, s'.slots[k].tenant.value)
    {
      var u :| 0 <= u < |s.threads| && Tenants(s.threads[u], k, s.slots[k].tenant.value);
      assert s'.threads[u] == s.threads[u];
    }
  }

  lemma BeginJobs(s: State, t: nat, l: Thread, s': State)
    requires Jobs(s) && t < |s.threads| && s.threads[t].pc.Idle? && s'.threads == s.threads[t := l] && !l.pc.Call?
    requires s'.jobs == s.jobs || (|s'.jobs| == |s.jobs| + 1 && s'.jobs[..|s.jobs|] == s.jobs && JobOk(s'.jobs[|s.jobs|]) &&
                                   s'.jobs[|s.jobs|].calls == [])
    requires Threads(s)
    ensures Jobs(s')
  {
    forall u | 0 <= u < |s'.threads| && s'.threads[u].pc.Call? && s'.threads[u].job < |s'.jobs|
      ensures s'.threads[u].first in s'.jobs[s'.threads[u].job].calls
    {
      assert ThreadOk(s, s.threads[u]);
    }
    forall j, f | 0 <= j < |s'.jobs| && !s'.jobs[j].failed && f in s'.jobs[j].calls && f !in s'.jobs[j].done
      ensures exists u :: 0 <= u < |s'.threads| && Calls(s'.threads[u], j, f)
    {
      var u :| 0 <= u < |s.threads| && Calls(s.threads[u], j, f);
      assert s'.threads[u] == s.threads[u];
    }
  }

  lemma BeginKeeps(s: State, t: nat, c: Choice)
    requires Inv(s) && t < |s.threads| && s.threads[t].pc.Idle?
    ensures Inv(Step(s, t, c))
  {
    var s' := Step(s, t, c);
    if s' != s {
      BeginSlots(s, t, s'.threads[t], s');
      BeginJobs(s, t, s'.threads[t], s');
      forall u | 0 <= u < |s'.threads| ensures ThreadOk(s', s'.threads[u]) {
        assert ThreadOk(s, s.threads[u]);
      }
    }
  }

  /** Every step of every thread keeps the invariant. */
  lemma StepKeeps(s: State, t: nat, c: Choice)
    requires Inv(s) && t < |s.threads|
    ensures Inv(Step(s, t, c))
  {
    var l := s.threads[t];
    if l.pc.Idle? {
      BeginKeeps(s, t, c);
    } else if AtJob(l.pc) {
      AtJobKeeps(s, t, c);
    } else if !l.pc.TakeSlot? {
      AtSlotKeeps(s, t, c);
    } else if l.tried < |s.slots| {
      TakeSlotKeeps(s, t, c);
    } else {
      AloneKeeps(s, t, c);
    }
  }

  // --- runs -----------------------------------------------------------------

  datatype Turn = Turn(thread: nat, choice: Choice)

  predicate Initial(s: State) {
    && s.jobs == [] && s.tickets == []
    && (forall k | 0 <= k < |s.slots| :: s.slots[k] == Slot(false, s.slots[k].generation, 0, None, None, false, false))
    && (forall t | 0 <= t < |s.threads| :: s.threads[t].pc.Idle?)
  }

  /** The state after the turns, in any interleaving; a turn of no thread does nothing. */
  function Run(s: State, turns: seq<Turn>): State {
    if turns == [] then s
    else
      var before := Run(s, turns[..|turns| - 1]);
      var last := turns[|turns| - 1];
      if last.thread < |before.threads| then Step(before, last.thread, last.choice) else before
  }

  lemma InitialInv(s: State)
    requires Initial(s)
    ensures Inv(s)
  {
    forall k | 0 <= k < |s.slots| ensures Sum(InsideWeight(k), s.threads) == 0 {
      SumZero(InsideWeight(k), s.threads);
    }
  }

  lemma {:induction false} RunInv(s: State, turns: seq<Turn>)
    requires Initial(s)
    ensures Inv(Run(s, turns))
  {
    if turns == [] {
      InitialInv(s);
    } else {
      RunInv(s, turns[..|turns| - 1]);
      var before := Run(s, turns[..|turns| - 1]);
      var last := turns[|turns| - 1];
      if last.thread < |before.threads| {
        StepKeeps(before, last.thread, last.choice);
      }
    }
  }

  /** In every interleaving: a thread that got in with a ticket works on the
      job of the loop that has the slot, which has not returned; the job its
      ticket was made for; and a ticket of an earlier generation never gets in. */
  lemma HelpersFindTheirLoop(s: State, turns: seq<Turn>, t: nat, c: Choice)
    requires Initial(s) && t < |Run(s, turns).threads|
    ensures var r := Run(s, turns); var l := r.threads[t];
      && (IsInside(l) ==> && l.slot < |r.slots| && l.job < |r.jobs|
                          && r.slots[l.slot].job == Some(l.job) && r.slots[l.slot].used && r.jobs[l.job].alive)
      && (l.pc.Enter? && l.slot < |r.slots| && r.slots[l.slot].generation != l.generation ==>
            Step(r, t, c).threads[t].pc.Idle? && Step(r, t, c).slots == r.slots)
      && (l.pc.Enter? && l.slot < |r.slots| && r.slots[l.slot].generation == l.generation ==>
            r.slots[l.slot].job == Some(l.job))
  {
    RunInv(s, turns);
    var r := Run(s, turns);
    var l := r.threads[t];
    assert ThreadOk(r, l);
    if IsInside(l) {
      var u :| 0 <= u < |r.threads| && Tenants(r.threads[u], l.slot, l.job);
      assert ThreadOk(r, r.threads[u]);
    }
    if l.pc.Enter? && l.slot < |r.slots| && r.slots[l.slot].generation != l.generation {
      assert Step(r, t, c).slots == r.slots[l.slot := r.slots[l.slot]];
    }
  }

  /** finishParallel: once it has seen nobody inside, nobody is, and nobody
      gets in any more before the slot belongs to another loop. */
  lemma NobodyIsInside(s: State, turns: seq<Turn>, t: nat, u: nat)
    requires Initial(s) && t < |Run(s, turns).threads| && u < |Run(s, turns).threads|
    requires var l := Run(s, turns).threads[t]; OwnsJob(l) && (l.pc.ClearJob? || l.pc.Release? || l.pc.Return?)
    ensures var r := Run(s, turns); var l, m := r.threads[t], r.threads[u];
      && (IsInside(m) ==> m.job != l.job)
      && (m.pc.Call? && m.job == l.job ==> u == t)
  {
    RunInv(s, turns);
    var r := Run(s, turns);
    var l, m := r.threads[t], r.threads[u];
    assert ThreadOk(r, l) && ThreadOk(r, m);
    forall v | 0 <= v < |r.threads| && Tenants(r.threads[v], m.slot, l.job) ensures v == t {
      assert ThreadOk(r, r.threads[v]);
    }
  }

  /** The chunk of an item. */
  predicate InChunk(job: Job, first: nat, item: nat) { first <= item < first + job.grain && item < job.count }

  lemma {:induction false} CallsAscend(job: Job, i: nat, j: nat)
    requires JobOk(job) && i < j < |job.calls|
    ensures job.calls[i] + job.grain <= job.calls[j]
  {
    if i + 1 < j {
      CallsAscend(job, i, j - 1);
    }
  }

  lemma {:induction false} CallsCover(job: Job, n: nat, item: nat) returns (i: nat)
    requires JobOk(job) && 0 < n <= |job.calls| && item < job.calls[n - 1] + job.grain
    ensures i < n && job.calls[i] <= item < job.calls[i] + job.grain
  {
    if job.calls[n - 1] <= item {
      i := n - 1;
    } else {
      i := CallsCover(job, n - 1, item);
    }
  }

  /** No item is in two chunks, and with all of them taken each is in one. */
  lemma ItemsAreInOneChunk(job: Job, item: nat)
    requires JobOk(job) && item < job.count
    ensures forall i, j | 0 <= i < |job.calls| && 0 <= j < |job.calls| && i != j ::
              !(InChunk(job, job.calls[i], item) && InChunk(job, job.calls[j], item))
    ensures !job.failed && job.next >= job.count ==> exists i :: 0 <= i < |job.calls| && InChunk(job, job.calls[i], item)
  {
    forall i, j | 0 <= i < |job.calls| && 0 <= j < |job.calls| && i != j
      ensures !(InChunk(job, job.calls[i], item) && InChunk(job, job.calls[j], item))
    {
      CallsAscend(job, if i < j then i else j, if i < j then j else i);
    }
    if !job.failed && job.next >= job.count {
      var i := CallsCover(job, |job.calls|, item);
      assert InChunk(job, job.calls[i], item);
    }
  }

  // --- what was done for a job ----------------------------------------------

  /** The function was called for the chunk from first on, and returned or threw. */
  datatype Deed = Called(first: nat) | Returned(first: nat) | Threw(first: nat)

  /** What a thread did for job j between two states: it came to a call, or the
      call it was in went one way or the other. */
  function DeedOf(l: Thread, c: Choice, l': Thread, j: nat): seq<Deed> {
    if l.pc.Call? && l.job == j then [if c.Fail? then Threw(l.first) else Returned(l.first)]
    else if !l.pc.Call? && l'.pc.Call? && l'.job == j then [Called(l'.first)]
    else []
  }

  /** All that was done for job j, in order. */
  function Deeds(s: State, turns: seq<Turn>, j: nat): seq<Deed> {
    if turns == [] then []
    else
      var init, last := turns[..|turns| - 1], turns[|turns| - 1];
      var before, after := Run(s, init), Run(s, turns);
      Deeds(s, init, j) +
      if last.thread < |before.threads| && last.thread < |after.threads|
      then DeedOf(before.threads[last.thread], last.choice, after.threads[last.thread], j) else []
  }

  /** The chunks of the calls, in order. */
  function CallsIn(deeds: seq<Deed>): seq<nat> {
    if deeds == [] then []
    else CallsIn(deeds[..|deeds| - 1]) + match deeds[|deeds| - 1] case Called(first) => [first] case _ => []
  }

  /** A job is what was done for it. */
  ghost predicate IsDeeds(job: Job, deeds: seq<Deed>) {
    && job.calls == CallsIn(deeds)
    && (forall first :: first in job.done <==> Returned(first) in deeds)
    && (job.failed <==> exists k :: 0 <= k < |deeds| && deeds[k].Threw?)
  }

  /** What a deed adds to the record of the job. */
  ghost predicate AddsDeed(job: Job, deed: Deed, job': Job) {
    match deed
    case Called(first) => job'.calls == job.calls + [first] && job'.done == job.done && job'.failed == job.failed
    case Returned(first) => job'.calls == job.calls && job'.done == job.done + {first} && job'.failed == job.failed
    case Threw(_) => job'.calls == job.calls && job'.done == job.done && job'.failed
  }

  lemma StepAddsDeed(job: Job, l: Thread, c: Choice)
    requires AtJob(l.pc)
    ensures var (job', l') := JobStep(job, l, c); var more := DeedOf(l, c, l', l.job);
      if more == [] then job'.calls == job.calls && job'.done == job.done && job'.failed == job.failed
      else more == [more[0]] && AddsDeed(job, more[0], job')
  {}

  lemma DeedAdded(job: Job, deeds: seq<Deed>, deed: Deed, job': Job)
    requires IsDeeds(job, deeds) && AddsDeed(job, deed, job')
    ensures IsDeeds(job', deeds + [deed])
  {
    var all := deeds + [deed];
    assert all[..|deeds|] == deeds && all[|deeds|] == deed;
    forall first ensures first in job'.done <==> Returned(first) in all {}
    if job.failed {
      var k :| 0 <= k < |deeds| && deeds[k].Threw?;
      assert all[k].Threw?;
    }
    assert forall k | 0 <= k < |deeds| :: all[k] == deeds[k];
  }

  lemma OneDeedMore(job: Job, deeds: seq<Deed>, l: Thread, c: Choice, j: nat)
    requires IsDeeds(job, deeds) && AtJob(l.pc) && l.job == j
    ensures var (job', l') := JobStep(job, l, c); IsDeeds(job', deeds + DeedOf(l, c, l', j))
  {
    var (job', l') := JobStep(job, l, c);
    var more := DeedOf(l, c, l', j);
    StepAddsDeed(job, l, c);
    if more == [] {
      assert deeds + more == deeds;
    } else {
      DeedAdded(job, deeds, more[0], job');
    }
  }

  /** A step elsewhere does nothing for the job. */
  lemma OtherDeeds(s: State, t: nat, c: Choice, j: nat)
    requires Inv(s) && t < |s.threads| && !(AtJob(s.threads[t].pc) && s.threads[t].job == j)
    ensures t < |Step(s, t, c).threads| && DeedOf(s.threads[t], c, Step(s, t, c).threads[t], j) == []
    ensures j < |s.jobs| ==> j < |Step(s, t, c).jobs| && Step(s, t, c).jobs[j] == s.jobs[j]
    ensures |s.jobs| <= j < |Step(s, t, c).jobs| ==> IsDeeds(Step(s, t, c).jobs[j], [])
  {
    assert ThreadOk(s, s.threads[t]);
  }

  /** In every interleaving: the calls of a job are those that were begun for it,
      those that are done returned, and it failed exactly if one of them threw. */
  lemma {:induction false} JobsAreTheirDeeds(s: State, turns: seq<Turn>, j: nat)
    requires Initial(s)
    ensures if j < |Run(s, turns).jobs| then IsDeeds(Run(s, turns).jobs[j], Deeds(s, turns, j)) else Deeds(s, turns, j) == []
  {
    if turns != [] {
      var init, last := turns[..|turns| - 1], turns[|turns| - 1];
      var before := Run(s, init);
      RunInv(s, init);
      JobsAreTheirDeeds(s, init, j);
      if last.thread < |before.threads| {
        var l := before.threads[last.thread];
        assert ThreadOk(before, l);
        if AtJob(l.pc) && l.job == j {
          OneDeedMore(before.jobs[j], Deeds(s, init, j), l, last.choice, j);
        } else {
          OtherDeeds(before, last.thread, last.choice, j);
          assert Deeds(s, init, j) + [] == Deeds(s, init, j);
        }
      }
    }
  }

  /** No call of the job threw. */
  predicate NoneThrew(deeds: seq<Deed>) { forall k | 0 <= k < |deeds| :: !deeds[k].Threw? }

  lemma CallsHaveReturned(s: State, turns: seq<Turn>, t: nat, f: nat)
    requires Initial(s) && t < |Run(s, turns).threads|
    requires var l := Run(s, turns).threads[t]; OwnsJob(l) && l.pc.Return? && l.job < |Run(s, turns).jobs|
    requires f in Run(s, turns).jobs[Run(s, turns).threads[t].job].calls
    requires !Run(s, turns).jobs[Run(s, turns).threads[t].job].failed
    ensures f in Run(s, turns).jobs[Run(s, turns).threads[t].job].done
  {
    RunInv(s, turns);
    var r := Run(s, turns);
    var j := r.threads[t].job;
    if f !in r.jobs[j].done {
      var u :| 0 <= u < |r.threads| && Calls(r.threads[u], j, f);
      NobodyIsInside(s, turns, t, u);
    }
  }

  /** parallelFor: when it returns, and no call threw, the function was called
      for every item in exactly one chunk, and every call has returned; even
      where one threw, no item was in two calls. */
  lemma EveryItemOnce(s: State, turns: seq<Turn>, t: nat, item: nat)
    requires Initial(s) && t < |Run(s, turns).threads|
    requires var l := Run(s, turns).threads[t]; OwnsJob(l) && l.pc.Return? && l.job < |Run(s, turns).jobs|
    requires item < Run(s, turns).jobs[Run(s, turns).threads[t].job].count
    ensures var r := Run(s, turns); var j := r.threads[t].job;
      var job, deeds := r.jobs[j], Deeds(s, turns, j);
      var calls := CallsIn(deeds);
      && (forall i, k | 0 <= i < |calls| && 0 <= k < |calls| && i != k ::
            !(InChunk(job, calls[i], item) && InChunk(job, calls[k], item)))
      && (NoneThrew(deeds) ==> exists i :: 0 <= i < |calls| && InChunk(job, calls[i], item))
      && (NoneThrew(deeds) ==> forall i | 0 <= i < |calls| :: Returned(calls[i]) in deeds)
  {
    RunInv(s, turns);
    var r := Run(s, turns);
    var j := r.threads[t].job;
    var job := r.jobs[j];
    JobsAreTheirDeeds(s, turns, j);
    assert ThreadOk(r, r.threads[t]);
    ItemsAreInOneChunk(job, item);
    forall i | 0 <= i < |job.calls| && !job.failed ensures job.calls[i] in job.done {
      CallsHaveReturned(s, turns, t, job.calls[i]);
    }
  }

  /** Chunks from 0 on, one every size items, the last one up to count. */
  predicate AreChunks(calls: seq<(nat, nat)>, count: nat, size: nat) {
    && (calls == [] <==> count == 0)
    && (calls != [] ==> calls[0].0 == 0 && calls[|calls| - 1].1 == count)
    && (forall i | 0 < i < |calls| :: calls[i].0 == calls[i - 1].0 + size)
    && (forall i | 0 <= i < |calls| ::
          calls[i].0 < count && calls[i].1 == if calls[i].0 + size < count then calls[i].0 + size else count)
  }

  /** A loop with nobody to share with, or too small to share: the same chunks,
      one after the other. */
  method ForAlone(count: nat, grain: nat) returns (calls: seq<(nat, nat)>)
    ensures AreChunks(calls, count, if grain == 0 then 1 else grain)
  {
    calls := [];
    var size := if grain == 0 then 1 else grain;
    if count <= size {
      if count != 0 {
        calls := [(0, count)];
      }
      return;
    }
    var first := 0;
    while first < count
      invariant AreChunks(calls, if first < count then first else count, size)
      invariant if calls == [] then first == 0 else first == calls[|calls| - 1].0 + size
      invariant forall i | 0 <= i < |calls| :: calls[i].0 < count && calls[i].1 == if calls[i].0 + size < count then calls[i].0 + size else count
    {
      var next := if first + size < count then first + size else count;
      calls := calls + [(first, next)];
      first := first + size;
    }
  }

  /** The chunks that a shared loop hands out, in the order they are taken. */
  lemma {:induction false} SharedChunkIs(job: Job, calls: seq<(nat, nat)>, i: nat)
    requires JobOk(job) && AreChunks(calls, job.count, job.grain) && i < |job.calls| && i < |calls|
    ensures job.calls[i] == calls[i].0
  {
    if i > 0 {
      SharedChunkIs(job, calls, i - 1);
    }
  }

  lemma LastEnds(calls: seq<(nat, nat)>, count: nat, size: nat, i: nat)
    requires AreChunks(calls, count, size) && i < |calls|
    ensures calls[i].0 + size >= count <==> i == |calls| - 1
  {
    if i < |calls| - 1 {
      assert calls[i + 1].0 < count;
    }
  }

  lemma LastTakenEnds(job: Job, i: nat)
    requires JobOk(job) && !job.failed && job.next >= job.count && i < |job.calls|
    ensures job.calls[i] + job.grain >= job.count <==> i == |job.calls| - 1
  {
    if i < |job.calls| - 1 {
      assert job.calls[i + 1] < job.count;
    }
  }

  /** With all of them taken, they are those of a loop alone. */
  lemma SharedChunksAreTheSame(job: Job, calls: seq<(nat, nat)>)
    requires JobOk(job) && !job.failed && job.next >= job.count && AreChunks(calls, job.count, job.grain)
    ensures |job.calls| == |calls| && forall i | 0 <= i < |calls| :: job.calls[i] == calls[i].0
  {
    forall i | 0 <= i < |calls| && i < |job.calls| ensures job.calls[i] == calls[i].0 {
      SharedChunkIs(job, calls, i);
    }
    var last := if |job.calls| < |calls| then |job.calls| - 1 else |calls| - 1;
    LastEnds(calls, job.count, job.grain, last);
    LastTakenEnds(job, last);
  }
}
