/**
 What a loop comes to that nobody helps with, and what a helper that comes to a
 loop does for it.
 */
module TicketSolo {
  import opened Options
  import opened Counting
  import opened Tickets
  import opened TicketInvariant
  import opened TicketRuns

  /** n steps of the thread, in which no call throws. */
  function Alone(s: State, t: nat, n: nat): State
    decreases n
  {
    if n == 0 || t >= |s.threads| then s else Alone(Step(s, t, Go), t, n - 1)
  }

  ghost predicate AllIdle(s: State) { forall t | 0 <= t < |s.threads| :: s.threads[t].pc.Idle? }

  ghost predicate OthersIdle(s: State, t: nat) { forall u | 0 <= u < |s.threads| && u != t :: s.threads[u].pc.Idle? }

  /** The loop of thread t alone, which is job j. */
  ghost predicate Loops(s: State, t: nat, j: nat, count: nat, grain: nat) {
    && t < |s.threads| && OthersIdle(s, t) && j < |s.jobs| && s.jobs[j].count == count && s.jobs[j].grain == grain > 0
    && !s.jobs[j].failed
    && var l := s.threads[t];
       if l.pc.Idle? then !s.jobs[j].alive && s.jobs[j].next >= count
       else !l.helper && l.job == j
  }

  function ItemsLeft(job: Job): nat { if job.next < job.count then job.count - job.next else 0 }

  /** More than the steps that are left. */
  function LoopRank(l: Thread, job: Job, slots: nat): nat {
    match l.pc
    case TakeSlot => 30 + 2 * ItemsLeft(job) + if l.tried < slots then slots - l.tried else 0
    case StoreJob => 16 + 2 * ItemsLeft(job) case LoadState => 15 + 2 * ItemsLeft(job) case Issue => 14 + 2 * ItemsLeft(job)
    case Unstore => 13 + 2 * ItemsLeft(job) case Unuse => 12 + 2 * ItemsLeft(job)
    case Next => 10 + 2 * ItemsLeft(job) case Call => 11 + 2 * ItemsLeft(job)
    case Bump => 6 case Wait => 5 case ClearJob => 4 case Release => 3 case Return => 2
    case _ => 0
  }

  lemma NobodyElseInside(s: State, t: nat)
    requires Inv(s) && t < |s.threads| && OthersIdle(s, t) && !s.threads[t].helper
    ensures forall k | 0 <= k < |s.slots| :: s.slots[k].inside == 0
  {
    forall k | 0 <= k < |s.slots| ensures s.slots[k].inside == 0 {
      SumZero(InsideWeight(k), s.threads);
    }
  }

  lemma JobGoesOn(job: Job, l: Thread, slots: nat)
    requires AtJob(l.pc) && !l.helper && !job.failed && job.grain > 0
    requires l.pc.Return? ==> job.next >= job.count
    ensures var (job', l') := JobStep(job, l, Go);
      && LoopRank(l', job', slots) < LoopRank(l, job, slots) && job'.count == job.count && job'.grain == job.grain && !job'.failed
      && (if l'.pc.Idle? then !job'.alive && job'.next >= job'.count else !l'.helper && l'.job == l.job)
  {}

  lemma SlotGoesOn(slot: Slot, l: Thread, job: Job, slots: nat)
    requires AtSlot(l.pc) && !l.helper && !l.pc.TakeSlot? && !l.pc.Enter? && !l.pc.ReadJob? && !l.pc.Leave? && slot.inside == 0
    ensures var l' := SlotStep(slot, l, Go).1;
      LoopRank(l', job, slots) < LoopRank(l, job, slots) && !l'.helper && l'.job == l.job && !l'.pc.Idle?
  {}

  lemma LoopStep(s: State, t: nat, j: nat, count: nat, grain: nat)
    requires Inv(s) && Loops(s, t, j, count, grain) && !s.threads[t].pc.Idle?
    ensures var s' := Step(s, t, Go);
      Loops(s', t, j, count, grain) && |s'.slots| == |s.slots| &&
      LoopRank(s'.threads[t], s'.jobs[j], |s.slots|) < LoopRank(s.threads[t], s.jobs[j], |s.slots|)
  {
    var l := s.threads[t];
    assert ThreadOk(s, l);
    NobodyElseInside(s, t);
    if AtJob(l.pc) {
      JobGoesOn(s.jobs[j], l, |s.slots|);
    } else if !l.pc.TakeSlot? {
      SlotGoesOn(s.slots[l.slot], l, s.jobs[j], |s.slots|);
    }
  }

  ghost predicate IsLooped(e: State, t: nat, j: nat, count: nat, grain: nat) {
    Loops(e, t, j, count, grain) && e.threads[t].pc.Idle?
  }

  lemma {:induction false} LoopGoes(s: State, t: nat, j: nat, count: nat, grain: nat) returns (n: nat)
    requires Inv(s) && Loops(s, t, j, count, grain)
    ensures IsLooped(Alone(s, t, n), t, j, count, grain)
    decreases LoopRank(s.threads[t], s.jobs[j], |s.slots|)
  {
    if s.threads[t].pc.Idle? {
      n := 0;
      assert Alone(s, t, 0) == s;
    } else {
      LoopStep(s, t, j, count, grain);
      StepKeeps(s, t, Go);
      n := LoopGoes(Step(s, t, Go), t, j, count, grain);
      assert Alone(s, t, n + 1) == Alone(Step(s, t, Go), t, n);
      n := n + 1;
    }
  }

  function Turns(t: nat, n: nat): seq<Turn> { seq(n, _ => Turn(t, Go)) }

  lemma {:induction false} RunAlone(s: State, turns: seq<Turn>, t: nat, n: nat)
    ensures Run(s, turns + Turns(t, n)) == Alone(Run(s, turns), t, n)
    decreases n
  {
    if n == 0 {
      assert turns + Turns(t, 0) == turns;
    } else {
      var next := turns + [Turn(t, Go)];
      assert turns + Turns(t, n) == next + Turns(t, n - 1);
      assert next[..|next| - 1] == turns;
      RunAlone(s, next, t, n - 1);
    }
  }

  lemma LoopBegins(r: State, t: nat, count: nat, grain: nat, place: nat)
    requires AllIdle(r) && t < |r.threads| && 0 < grain < count && |r.slots| > 0
    ensures Loops(Step(r, t, Loop(count, grain, place)), t, |r.jobs|, count, grain)
  {}

  /** Some call was for the item. */
  ghost predicate WasCalled(job: Job, calls: seq<nat>, item: nat) {
    exists i :: 0 <= i < |calls| && InChunk(job, calls[i], item)
  }

  /** No call threw, the calls were for a chunk every grain items, each returned,
      and every item was in one. */
  ghost predicate IsAllDone(job: Job, deeds: seq<Deed>) {
    var calls := CallsIn(deeds);
    && NoneThrew(deeds)
    && (forall i | 0 <= i < |calls| :: calls[i] == i * job.grain && Returned(calls[i]) in deeds)
    && (forall item: nat | item < job.count :: WasCalled(job, calls, item))
  }

  lemma {:induction false} ChunkAt(job: Job, i: nat)
    requires JobOk(job) && i < |job.calls|
    ensures job.calls[i] == i * job.grain
  {
    if i > 0 {
      ChunkAt(job, i - 1);
      assert i * job.grain == (i - 1) * job.grain + job.grain;
    }
  }

  lemma DeedsAreAllDone(job: Job, deeds: seq<Deed>)
    requires JobOk(job) && IsDeeds(job, deeds) && !job.failed && job.next >= job.count
    requires forall f | f in job.calls :: f in job.done
    ensures IsAllDone(job, deeds)
  {
    forall i | 0 <= i < |job.calls| ensures job.calls[i] == i * job.grain && Returned(job.calls[i]) in deeds {
      ChunkAt(job, i);
    }
    forall item: nat | item < job.count ensures WasCalled(job, job.calls, item) {
      ItemsAreInOneChunk(job, item);
    }
  }

  lemma AtRestCallsAreDone(s: State, j: nat)
    requires Inv(s) && AllIdle(s) && j < |s.jobs| && !s.jobs[j].failed
    ensures JobOk(s.jobs[j]) && forall f | f in s.jobs[j].calls :: f in s.jobs[j].done
  {}

  lemma LoopedIsDone(s: State, all: seq<Turn>, t: nat, j: nat, count: nat, grain: nat)
    requires Initial(s) && IsLooped(Run(s, all), t, j, count, grain)
    ensures AllIdle(Run(s, all)) && !Run(s, all).jobs[j].alive && IsAllDone(Run(s, all).jobs[j], Deeds(s, all, j))
  {
    RunInv(s, all);
    JobsAreTheirDeeds(s, all, j);
    AtRestCallsAreDone(Run(s, all), j);
    DeedsAreAllDone(Run(s, all).jobs[j], Deeds(s, all, j));
  }

  /** A loop that begins with nobody inside and that nobody helps with returns;
      by then the function was called for every item, in chunks that start every
      grain items, and returned each time. */
  lemma LoopEndsAlone(s: State, turns: seq<Turn>, t: nat, count: nat, grain: nat, place: nat) returns (n: nat)
    requires Initial(s) && AllIdle(Run(s, turns)) && t < |Run(s, turns).threads| && 0 < grain < count && |Run(s, turns).slots| > 0
    ensures var all := turns + [Turn(t, Loop(count, grain, place))] + Turns(t, n);
      var e, j := Run(s, all), |Run(s, turns).jobs|;
      && AllIdle(e) && j < |e.jobs| && e.jobs[j].count == count && e.jobs[j].grain == grain && !e.jobs[j].alive
      && IsAllDone(e.jobs[j], Deeds(s, all, j))
  {
    var r, begun := Run(s, turns), turns + [Turn(t, Loop(count, grain, place))];
    var j := |r.jobs|;
    assert begun[..|begun| - 1] == turns;
    RunInv(s, begun);
    LoopBegins(r, t, count, grain, place);
    n := LoopGoes(Run(s, begun), t, j, count, grain);
    RunAlone(s, begun, t, n);
    LoopedIsDone(s, begun + Turns(t, n), t, j, count, grain);
  }

  // --- helpers --------------------------------------------------------------

  /** In every interleaving: with the ticket of a loop that still has its slot
      a helper gets in, and whoever works on a loop with items left takes the
      next chunk, unless it is told to stop. */
  lemma HelpersTakeChunks(s: State, turns: seq<Turn>, t: nat)
    requires Initial(s) && t < |Run(s, turns).threads|
    ensures var r := Run(s, turns); var l, l' := r.threads[t], Step(r, t, Go).threads[t];
      && (l.pc.Enter? && l.slot < |r.slots| && r.slots[l.slot].generation == l.generation ==> l'.pc.ReadJob? && IsInside(l'))
      && (l.pc.ReadJob? ==> l'.pc.Next? && l'.job == l.job)
      && (l.pc.Next? && l.job < |r.jobs| && r.jobs[l.job].next < r.jobs[l.job].count ==>
            l'.pc.Call? && l'.job == l.job && l'.first == r.jobs[l.job].next)
  {
    RunInv(s, turns);
    var r := Run(s, turns);
    assert ThreadOk(r, r.threads[t]);
  }
}
