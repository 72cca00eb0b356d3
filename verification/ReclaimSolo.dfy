/**
 What the operations of Reclaim come to: a task holds what it read until it
 leaves, replace puts the old resource on the list, and a look that no other one
 meets ends exactly those that no task under way can have read.
 */
module ReclaimSolo {
  import opened Counting
  import opened Iterations
  import opened Reclaim

  // --- what a task holds ----------------------------------------------------

  predicate Reads(s: State, turn: Turn) {
    turn.thread < |s.threads| && s.threads[turn.thread].pc.Task? && turn.choice.Read? && turn.choice.entry < |s.current|
  }

  predicate Leaves(s: State, turn: Turn) {
    turn.thread < |s.threads| && s.threads[turn.thread].pc.Task? && turn.choice.Leave?
  }

  /** What a thread read since its task began. */
  ghost function ReadByTask(s: State, turns: seq<Turn>, t: nat): set<nat> {
    if turns == [] then {}
    else
      var init, last := turns[..|turns| - 1], turns[|turns| - 1];
      var r := Run(s, init);
      if last.thread == t && Leaves(r, last) then {}
      else if last.thread == t && Reads(r, last) then ReadByTask(s, init, t) + {r.current[last.choice.entry]}
      else ReadByTask(s, init, t)
  }

  lemma StepHolds(s: State, u: nat, c: Choice, t: nat)
    requires Shape(s) && u < |s.threads| && t < |s.threads|
    ensures |Step(s, u, c).threads| == |s.threads|
    ensures Step(s, u, c).threads[t].held ==
      if u == t && Leaves(s, Turn(u, c)) then {}
      else if u == t && Reads(s, Turn(u, c)) then s.threads[t].held + {s.current[c.entry]}
      else s.threads[t].held
  {}

  /** In every interleaving: a task holds exactly what it read. */
  lemma {:induction false} TaskHoldsWhatItRead(s: State, turns: seq<Turn>, t: nat)
    requires Initial(s) && t < |s.threads|
    ensures t < |Run(s, turns).threads| && Run(s, turns).threads[t].held == ReadByTask(s, turns, t)
  {
    if turns != [] {
      var init, last := turns[..|turns| - 1], turns[|turns| - 1];
      RunInv(s, init);
      TaskHoldsWhatItRead(s, init, t);
      if last.thread < |Run(s, init).threads| {
        StepHolds(Run(s, init), last.thread, last.choice, t);
      }
    }
  }

  /** The task of the thread does not leave in the turns from i on. */
  ghost predicate Stays(s: State, turns: seq<Turn>, t: nat, i: nat) {
    forall k | i <= k < |turns| :: !(turns[k].thread == t && turns[k].choice.Leave?)
  }

  lemma {:induction false} ReadStays(s: State, turns: seq<Turn>, t: nat, i: nat)
    requires i < |turns| && turns[i].thread == t && Reads(Run(s, turns[..i]), turns[i]) && Stays(s, turns, t, i)
    ensures Run(s, turns[..i]).current[turns[i].choice.entry] in ReadByTask(s, turns, t)
    decreases |turns|
  {
    var init := turns[..|turns| - 1];
    if i < |init| {
      assert init[..i] == turns[..i];
      ReadStays(s, init, t, i);
    } else {
      assert turns[..i] == init;
    }
  }

  /** And whatever a task read is not ended before it leaves. */
  lemma ReadIsNotEnded(s: State, turns: seq<Turn>, t: nat, i: nat)
    requires Initial(s) && t < |s.threads|
    requires i < |turns| && turns[i].thread == t && Reads(Run(s, turns[..i]), turns[i]) && Stays(s, turns, t, i)
    ensures Run(s, turns[..i]).current[turns[i].choice.entry] !in Run(s, turns).ended
  {
    ReadStays(s, turns, t, i);
    TaskHoldsWhatItRead(s, turns, t);
    var resource := Run(s, turns[..i]).current[turns[i].choice.entry];
    if resource in Run(s, turns).ended {
      EndedIsUnread(s, turns, resource);
      assert false;
    }
  }

  // --- alone ----------------------------------------------------------------

  /** A step of the thread in an operation; a task begins and does not end. */
  function Alone(t: nat): State -> State {
    (s: State) => if Shape(s) && t < |s.threads| && !s.threads[t].pc.Rest? then Step(s, t, Enter) else s
  }

  ghost predicate NobodyLooks(s: State, t: nat) { forall u | 0 <= u < |s.threads| && u != t :: !s.threads[u].pc.Look? }

  lemma RunBegins(s: State, turns: seq<Turn>, t: nat, c: Choice)
    requires Initial(s) && t < |Run(s, turns).threads|
    ensures Inv(Run(s, turns)) && Run(s, turns + [Turn(t, c)]) == Step(Run(s, turns), t, c)
  {
    RunInv(s, turns);
    var begun := turns + [Turn(t, c)];
    assert begun[..|begun| - 1] == turns;
  }

  lemma Steps(s: State, t: nat, y: State, z: State)
    requires Shape(s) && t < |s.threads| && !s.threads[t].pc.Rest? && y == Step(s, t, Enter) && Leads(Alone(t), y, z)
    ensures Leads(Alone(t), s, z)
  {
    LeadsFirst(Alone(t), s, z);
  }

  /** The state after forceLoad of an entry. */
  ghost predicate IsReplaced(r: State, z: State, t: nat, e: nat)
    requires t < |r.threads| && e < |r.current|
  {
    && |z.threads| == |r.threads| && z.threads == r.threads[t := z.threads[t]] && z.threads[t].pc.Rest?
    && z.current == r.current[e := r.made] && z.made == r.made + 1 && z.since == r.since && z.ended == r.ended
    && z.epoch == r.epoch + 1 && z.replaced == [Replaced(r.current[e], z.epoch)] + r.replaced
  }

  /** replace, while nobody looks: a new resource, and the old one on the list,
      marked with an epoch that no task under way has. */
  lemma ReplaceEnds(s: State, turns: seq<Turn>, t: nat, e: nat)
    requires Initial(s) && t < |Run(s, turns).threads| && Run(s, turns).threads[t].pc.Rest? && e < |Run(s, turns).current|
    requires NobodyLooks(Run(s, turns), t)
    ensures exists z :: Leads(Alone(t), Run(s, turns + [Turn(t, Force(e))]), z) && IsReplaced(Run(s, turns), z, t, e)
    ensures var r := Run(s, turns); forall u | 0 <= u < |r.since| :: r.since[u].At? ==> r.since[u].epoch < r.epoch + 1
  {
    var r := Run(s, turns);
    RunBegins(s, turns, t, Force(e));
    ReplaceComes(r, t, e);
  }

  lemma ReplaceComes(r: State, t: nat, e: nat)
    requires Shape(r) && t < |r.threads| && r.threads[t].pc.Rest? && e < |r.current| && NobodyLooks(r, t)
    ensures exists z :: Leads(Alone(t), Step(r, t, Force(e)), z) && IsReplaced(r, z, t, e)
  {
    var a := Step(r, t, Force(e));
    var b := Step(a, t, Enter);
    var c := Step(b, t, Enter);
    var z := Step(c, t, Enter);
    LeadsHere(Alone(t), z);
    Steps(c, t, z, z);
    Steps(b, t, c, z);
    Steps(a, t, b, z);
    assert IsReplaced(r, z, t, e);
  }

  // --- freeReplaced ---------------------------------------------------------

  /** No task under way entered before the mark. */
  ghost predicate AllPass(since: seq<Since>, mark: nat) { forall k | 0 <= k < |since| :: Passes(since[k], mark) }

  /** The replaced that have to stay, and those that go. */
  ghost function Kept(replaced: seq<Replaced>, since: seq<Since>): seq<Replaced> {
    if replaced == [] then []
    else
      var last := replaced[|replaced| - 1];
      Kept(replaced[..|replaced| - 1], since) + if AllPass(since, last.mark) then [] else [last]
  }

  ghost function Gone(replaced: seq<Replaced>, since: seq<Since>): seq<nat> {
    if replaced == [] then []
    else
      var last := replaced[|replaced| - 1];
      Gone(replaced[..|replaced| - 1], since) + if AllPass(since, last.mark) then [last.resource] else []
  }

  /** Only the thread, the list and what is ended changed since r. */
  ghost predicate SameBut(r: State, s: State, t: nat) {
    && t < |r.threads| == |s.threads| && s.threads == r.threads[t := s.threads[t]]
    && s.since == r.since && s.current == r.current && s.epoch == r.epoch && s.made == r.made
  }

  /** The loops of freeReplaced have come to the replaced number k of state r. */
  ghost predicate Looks(r: State, s: State, t: nat, k: nat) {
    && SameBut(r, s, t) && k <= |r.replaced|
    && var l := s.threads[t];
       && l.pc.Look? && s.ended == r.ended && l.at == |Kept(r.replaced[..k], r.since)|
       && s.replaced == Kept(r.replaced[..k], r.since) + r.replaced[k..]
       && l.hand == Gone(r.replaced[..k], r.since)
       && l.slot <= |r.since|
       && (k < |r.replaced| ==> forall j | 0 <= j < l.slot :: Passes(r.since[j], r.replaced[k].mark))
  }

  /** And have come to the end of the list. */
  ghost predicate Frees(r: State, s: State, t: nat) {
    && SameBut(r, s, t) && s.replaced == Kept(r.replaced, r.since)
    && var l := s.threads[t];
       && (l.pc.Free? || (l.pc.Rest? && l.hand == []))
       && s.ended + multiset(l.hand) == r.ended + multiset(Gone(r.replaced, r.since))
  }

  lemma KeptUpTo(replaced: seq<Replaced>, since: seq<Since>, k: nat)
    requires k < |replaced|
    ensures Kept(replaced[..k + 1], since) == Kept(replaced[..k], since) + if AllPass(since, replaced[k].mark) then [] else [replaced[k]]
    ensures Gone(replaced[..k + 1], since) ==
      Gone(replaced[..k], since) + if AllPass(since, replaced[k].mark) then [replaced[k].resource] else []
  {
    assert replaced[..k + 1][..k] == replaced[..k];
  }

  lemma LookNext(r: State, s: State, t: nat, k: nat) returns (m: nat)
    requires Shape(s) && Looks(r, s, t, k) && k < |r.replaced|
    ensures Looks(r, Step(s, t, Enter), t, m)
    ensures (m == k && Step(s, t, Enter).threads[t].slot == s.threads[t].slot + 1) || m == k + 1
  {
    var l := s.threads[t];
    KeptUpTo(r.replaced, r.since, k);
    assert s.replaced[l.at] == r.replaced[k];
    if l.slot >= |s.since| {
      m := k + 1;
      assert s.replaced[..l.at] + s.replaced[l.at + 1..] == Kept(r.replaced[..k], r.since) + r.replaced[k + 1..];
    } else if Passes(s.since[l.slot], s.replaced[l.at].mark) {
      m := k;
    } else {
      m := k + 1;
      assert !AllPass(r.since, r.replaced[k].mark);
      assert Kept(r.replaced[..k], r.since) + r.replaced[k..] == Kept(r.replaced[..k + 1], r.since) + r.replaced[k + 1..];
    }
  }

  lemma LookEnds(r: State, s: State, t: nat)
    requires Shape(s) && Looks(r, s, t, |r.replaced|)
    ensures Frees(r, Step(s, t, Enter), t)
  {
    assert r.replaced[..|r.replaced|] == r.replaced;
    assert s.replaced == Kept(r.replaced, r.since);
  }

  lemma FreeNext(r: State, s: State, t: nat)
    requires Shape(s) && Frees(r, s, t) && s.threads[t].pc.Free?
    ensures var s' := Step(s, t, Enter);
      Frees(r, s', t) && if s.threads[t].hand == [] then s'.threads[t].pc.Rest? else s'.threads[t].hand == s.threads[t].hand[1..]
  {
    var l := s.threads[t];
    if l.hand != [] {
      assert l.hand == [l.hand[0]] + l.hand[1..];
    }
  }

  ghost predicate IsFreed(r: State, z: State, t: nat) { Frees(r, z, t) && z.threads[t].pc.Rest? }

  lemma {:induction false} FreesGo(r: State, s: State, t: nat)
    requires Shape(r) && Frees(r, s, t)
    ensures exists z :: Leads(Alone(t), s, z) && IsFreed(r, z, t)
    decreases if s.threads[t].pc.Rest? then 0 else 1, |s.threads[t].hand|
  {
    if s.threads[t].pc.Rest? {
      LeadsHere(Alone(t), s);
    } else {
      FreeNext(r, s, t);
      var s' := Step(s, t, Enter);
      FreesGo(r, s', t);
      var z :| Leads(Alone(t), s', z) && IsFreed(r, z, t);
      Steps(s, t, s', z);
    }
  }

  lemma {:induction false} LooksGo(r: State, s: State, t: nat, k: nat)
    requires Shape(r) && Looks(r, s, t, k)
    ensures exists z :: Leads(Alone(t), s, z) && IsFreed(r, z, t)
    decreases |r.replaced| - k, |r.since| - s.threads[t].slot
  {
    var s' := Step(s, t, Enter);
    if k < |r.replaced| {
      var m := LookNext(r, s, t, k);
      LooksGo(r, s', t, m);
    } else {
      LookEnds(r, s, t);
      FreesGo(r, s', t);
    }
    var z :| Leads(Alone(t), s', z) && IsFreed(r, z, t);
    Steps(s, t, s', z);
  }

  lemma LookBegins(r: State, t: nat)
    requires Inv(r) && t < |r.threads| && r.threads[t].pc.Rest? && NobodyLooks(r, t)
    ensures Looks(r, Step(r, t, Check), t, 0)
  {
    assert r.threads[t].hand == [];
    assert r.replaced[0..] == r.replaced && r.replaced[..0] == [];
  }

  /** freeReplaced, while no other look is under way, whatever the tasks on the
      lane have come to: the replaced that every one of them entered after go and
      are ended, the others stay in their order. */
  lemma LookFreesWhatItMay(s: State, turns: seq<Turn>, t: nat)
    requires Initial(s) && t < |Run(s, turns).threads| && Run(s, turns).threads[t].pc.Rest? && NobodyLooks(Run(s, turns), t)
    ensures var r := Run(s, turns);
      exists z :: Leads(Alone(t), Run(s, turns + [Turn(t, Check)]), z) && SameBut(r, z, t) && z.threads[t].pc.Rest?
                  && z.replaced == Kept(r.replaced, r.since) && z.ended == r.ended + multiset(Gone(r.replaced, r.since))
  {
    var r := Run(s, turns);
    RunBegins(s, turns, t, Check);
    LookBegins(r, t);
    LooksGo(r, Step(r, t, Check), t, 0);
    var z :| Leads(Alone(t), Step(r, t, Check), z) && IsFreed(r, z, t);
    assert multiset(z.threads[t].hand) == multiset{};
  }

  // --- tasks ----------------------------------------------------------------

  /** LaneBusy around a task: its slot says in which epoch it began. */
  lemma TaskEnters(s: State, turns: seq<Turn>, t: nat)
    requires Initial(s) && t < |Run(s, turns).threads| && Run(s, turns).threads[t].pc.Rest?
    ensures Shape(Run(s, turns))
    ensures var r := Run(s, turns);
      exists z :: Leads(Alone(t), Run(s, turns + [Turn(t, Enter)]), z) && |z.threads| == |r.threads| && z.threads[t].pc.Task?
                  && z == r.(since := r.since[t := At(r.epoch)], threads := r.threads[t := z.threads[t]])
  {
    var r := Run(s, turns);
    RunBegins(s, turns, t, Enter);
    var a := Step(r, t, Enter);
    var b := Step(a, t, Enter);
    var z := Step(b, t, Enter);
    LeadsHere(Alone(t), z);
    Steps(b, t, z, z);
    Steps(a, t, b, z);
  }

  lemma OtherStepSince(s: State, u: nat, c: Choice)
    requires Shape(s) && u < |s.threads| && !InTask(s.threads[u].pc)
    ensures var s' := Step(s, u, c);
      s'.since == s.since && |s'.threads| == |s.threads| && s'.threads == s.threads[u := s'.threads[u]] && !s'.threads[u].pc.Task?
  {}

  lemma TaskStepSince(s: State, u: nat, c: Choice, t: nat)
    requires Shape(s) && u < |s.threads| && t < |s.threads| && (s.since[t].At? <==> s.threads[t].pc.Task?)
    requires InTask(s.threads[u].pc)
    ensures var s' := TaskStep(s, u, c);
      |s'.since| == |s.since| && |s'.threads| == |s.threads| && (s'.since[t].At? <==> s'.threads[t].pc.Task?)
  {}

  lemma StepSince(s: State, u: nat, c: Choice, t: nat)
    requires Shape(s) && u < |s.threads| && t < |s.threads| && (s.since[t].At? <==> s.threads[t].pc.Task?)
    ensures var s' := Step(s, u, c);
      |s'.since| == |s.since| && |s'.threads| == |s.threads| && (s'.since[t].At? <==> s'.threads[t].pc.Task?)
  {
    if InTask(s.threads[u].pc) {
      TaskStepSince(s, u, c, t);
    } else {
      OtherStepSince(s, u, c);
    }
  }

  /** In every interleaving the slot of a thread has an epoch exactly while its
      task is under way. */
  lemma {:induction false} SlotIsOfTask(s: State, turns: seq<Turn>, t: nat)
    requires Initial(s) && t < |s.threads|
    ensures var r := Run(s, turns);
      Shape(r) && |r.threads| == |s.threads| && (r.since[t].At? <==> r.threads[t].pc.Task?)
  {
    if turns != [] {
      var init, last := turns[..|turns| - 1], turns[|turns| - 1];
      SlotIsOfTask(s, init, t);
      if last.thread < |s.threads| {
        StepSince(Run(s, init), last.thread, last.choice, t);
      }
    }
  }

  lemma {:induction false} NoTaskKeeps(replaced: seq<Replaced>, since: seq<Since>)
    requires forall k | 0 <= k < |since| :: since[k].Idle?
    ensures Kept(replaced, since) == [] && multiset(Gone(replaced, since)) == multiset(Resources(replaced))
  {
    if replaced != [] {
      var init, last := replaced[..|replaced| - 1], replaced[|replaced| - 1];
      NoTaskKeeps(init, since);
      assert Resources(replaced) == Resources(init) + [last.resource];
    }
  }

  /** So with no task under way every replaced resource goes. */
  lemma WithoutTasksAllGo(s: State, turns: seq<Turn>, t: nat)
    requires Initial(s) && t < |Run(s, turns).threads| && Run(s, turns).threads[t].pc.Rest? && NobodyLooks(Run(s, turns), t)
    requires forall u | 0 <= u < |Run(s, turns).threads| :: !Run(s, turns).threads[u].pc.Task?
    ensures var r := Run(s, turns);
      exists z :: Leads(Alone(t), Run(s, turns + [Turn(t, Check)]), z) && z.replaced == []
                  && z.ended == r.ended + multiset(Resources(r.replaced))
  {
    var r := Run(s, turns);
    LookFreesWhatItMay(s, turns, t);
    RunInv(s, turns);
    forall k | 0 <= k < |r.since| ensures r.since[k].Idle? {
      ThreadsStay(s, turns);
      SlotIsOfTask(s, turns, k);
    }
    NoTaskKeeps(r.replaced, r.since);
  }

  lemma {:induction false} ThreadsStay(s: State, turns: seq<Turn>)
    requires Initial(s)
    ensures |Run(s, turns).threads| == |s.threads|
  {
    if turns != [] {
      var init, last := turns[..|turns| - 1], turns[|turns| - 1];
      ThreadsStay(s, init);
      if Shape(Run(s, init)) && last.thread < |s.threads| {
        StepHolds(Run(s, init), last.thread, last.choice, last.thread);
      }
    }
  }
}
