/**
 What gets onto the background lane: the loads that were asked for and no other
 ones, and, when nothing else goes on, as many as the limit allows.
 */
module DispatchSolo {
  import opened Counting
  import opened Iterations
  import opened Lists
  import opened Dispatch

  // --- whose loads ----------------------------------------------------------

  /** How often a task for the load was started, and how many tasks ended. */
  ghost function Asked(s: State, turns: seq<Turn>, load: nat): nat {
    if turns == [] then 0
    else
      var init, last := turns[..|turns| - 1], turns[|turns| - 1];
      Asked(s, init, load) + Bool(Begins(Run(s, init), last) && last.choice.StartTask? && last.choice.load == load)
  }

  ghost function TasksEnded(s: State, turns: seq<Turn>): nat {
    if turns == [] then 0
    else
      var init, last := turns[..|turns| - 1], turns[|turns| - 1];
      TasksEnded(s, init) + Bool(Begins(Run(s, init), last) && last.choice.TaskDone?)
  }

  /** The turn has an idle thread begin; no task ends where none is on the lane. */
  predicate Begins(s: State, turn: Turn) {
    turn.thread < |s.threads| && s.threads[turn.thread].pc.Idle? && (turn.choice.TaskDone? ==> s.live > 0)
  }

  function PushWeight(load: nat): Thread -> nat { (l: Thread) => Bool(l.pc.Push? && l.load == load) }

  /** Push pushes what the thread was asked for. */
  lemma StepTakesOver(s: State, t: nat, c: Choice, load: nat)
    requires t < |s.threads|
    ensures var l, s' := s.threads[t], Step(s, t, c);
      && s'.pushed == s.pushed + (if l.pc.Push? then [l.load] else [])
      && |s'.threads| == |s.threads| && s'.threads == s.threads[t := s'.threads[t]]
      && PushWeight(load)(s'.threads[t]) == Bool(Begins(s, Turn(t, c)) && c.StartTask? && c.load == load)
  {}

  lemma StepPushes(s: State, t: nat, c: Choice, load: nat)
    requires t < |s.threads|
    ensures var s' := Step(s, t, c);
      multiset(s'.pushed)[load] + Sum(PushWeight(load), s'.threads) ==
      multiset(s.pushed)[load] + Sum(PushWeight(load), s.threads) +
      Bool(Begins(s, Turn(t, c)) && c.StartTask? && c.load == load)
  {
    StepTakesOver(s, t, c, load);
    SumUpdate(PushWeight(load), s.threads, t, Step(s, t, c).threads[t]);
  }

  lemma StepSubmits(s: State, t: nat, c: Choice)
    requires t < |s.threads|
    ensures var s' := Step(s, t, c);
      s'.live + Bool(Begins(s, Turn(t, c)) && c.TaskDone?) + |s.submitted| == s.live + |s'.submitted|
  {}

  lemma {:induction false} PushedIsAsked(s: State, turns: seq<Turn>, load: nat)
    requires Initial(s)
    ensures var r := Run(s, turns);
      && multiset(r.pushed)[load] + Sum(PushWeight(load), r.threads) == Asked(s, turns, load)
      && r.live + TasksEnded(s, turns) == |r.submitted|
  {
    if turns == [] {
      SumZero(PushWeight(load), s.threads);
    } else {
      var init, last := turns[..|turns| - 1], turns[|turns| - 1];
      PushedIsAsked(s, init, load);
      if last.thread < |Run(s, init).threads| {
        StepPushes(Run(s, init), last.thread, last.choice, load);
        StepSubmits(Run(s, init), last.thread, last.choice);
      }
    }
  }

  /** In every interleaving: with no thread between two of its steps, every load
      was pushed as often as a task for it was started, and what was submitted is
      on the lane or has ended. */
  lemma AtRestPushedIsAsked(s: State, turns: seq<Turn>, load: nat)
    requires Initial(s) && AllIdle(Run(s, turns))
    ensures var r := Run(s, turns);
      multiset(r.pushed)[load] == Asked(s, turns, load) && r.live + TasksEnded(s, turns) == |r.submitted|
  {
    PushedIsAsked(s, turns, load);
    SumZero(PushWeight(load), Run(s, turns).threads);
  }

  ghost predicate AllIdle(s: State) { forall t | 0 <= t < |s.threads| :: s.threads[t].pc.Idle? }

  // --- alone ----------------------------------------------------------------

  /** A step of the thread in an operation. */
  function Alone(t: nat): State -> State {
    (s: State) => if t < |s.threads| && !s.threads[t].pc.Idle? then Step(s, t, TaskDone) else s
  }

  ghost predicate OthersIdle(s: State, t: nat) { forall u | 0 <= u < |s.threads| && u != t :: s.threads[u].pc.Idle? }

  /** On the way of an operation, begun in state r, that pushes these loads. */
  ghost predicate Going(r: State, s: State, t: nat, loads: seq<nat>) {
    && t < |s.threads| == |r.threads| && OthersIdle(s, t)
    && var l := s.threads[t];
       && s.requests == Bool(InDispatch(l.pc)) && (InDispatch(l.pc) ==> l.handled == 1)
       && (if l.pc.Push? then s.pushed == r.pushed && loads == [l.load] else s.pushed == r.pushed + loads)
       && r.submitted <= s.submitted && |s.submitted| - |r.submitted| == s.live - r.live + Bool(loads == [])
  }

  function Rank(s: State, l: Thread): nat {
    match l.pc
    case Push => 3 * (|s.queued| + |s.incoming|) + 9
    case Ended => 3 * (|s.queued| + |s.incoming|) + 9
    case Request => 3 * (|s.queued| + |s.incoming|) + 5
    case Take => 3 * (|s.queued| + |s.incoming|) + 4
    case Check => 3 * |s.queued| + 3
    case Start => 3 * |s.queued| + 2
    case Submit => 3 * |s.queued| + 4
    case Settle => 1
    case Idle => 0
  }

  lemma ReversedLength(list: seq<nat>)
    ensures |Reversed(list)| == |list|
  {}

  lemma StepGoes(r: State, s: State, t: nat, loads: seq<nat>)
    requires Limited(s) && Going(r, s, t, loads) && !s.threads[t].pc.Idle?
    ensures var s' := Step(s, t, TaskDone); Going(r, s', t, loads) && Rank(s', s'.threads[t]) < Rank(s, s.threads[t])
  {
    ReversedLength(s.incoming);
  }

  lemma {:induction false} GoesOn(r: State, s: State, t: nat, loads: seq<nat>)
    requires Inv(s) && Going(r, s, t, loads)
    ensures exists z :: Leads(Alone(t), s, z) && Inv(z) && Going(r, z, t, loads) && AllIdle(z)
    decreases Rank(s, s.threads[t])
  {
    if s.threads[t].pc.Idle? {
      LeadsHere(Alone(t), s);
    } else {
      StepGoes(r, s, t, loads);
      StepKeeps(s, t, TaskDone);
      var s' := Step(s, t, TaskDone);
      GoesOn(r, s', t, loads);
      var z :| Leads(Alone(t), s', z) && Inv(z) && Going(r, z, t, loads) && AllIdle(z);
      LeadsFirst(Alone(t), s, z);
    }
  }

  lemma Begun(r: State, t: nat, c: Choice)
    requires Inv(r) && AllIdle(r) && Begins(r, Turn(t, c))
    ensures Going(r, Step(r, t, c), t, if c.StartTask? then [c.load] else [])
  {
    assert r.requests == 0;
    assert r.pushed + [] == r.pushed;
  }

  /** What was pushed with the load of a task that was started, is on the lane as
      far as the limit allows, and waits for the end of one otherwise. */
  ghost predicate IsDone(r: State, z: State, c: Choice) {
    && AllIdle(z) && z.pushed == r.pushed + (if c.StartTask? then [c.load] else [])
    && r.submitted <= z.submitted && z.submitted + z.queued == z.pushed && z.incoming == []
    && z.live + |r.submitted| == r.live + |z.submitted| - Bool(c.TaskDone?)
    && (z.queued == [] || z.live == z.limit)
  }

  lemma RunBegins(s: State, turns: seq<Turn>, t: nat, c: Choice)
    requires t < |Run(s, turns).threads|
    ensures Run(s, turns + [Turn(t, c)]) == Step(Run(s, turns), t, c)
  {
    var begun := turns + [Turn(t, c)];
    assert begun[..|begun| - 1] == turns;
  }

  /** startTask and taskDone, begun when no thread is in them and met by none, end
      and leave no load waiting that the limit lets go. */
  lemma OperationEnds(s: State, turns: seq<Turn>, t: nat, c: Choice)
    requires Initial(s) && AllIdle(Run(s, turns)) && Begins(Run(s, turns), Turn(t, c))
    ensures exists z :: Leads(Alone(t), Run(s, turns + [Turn(t, c)]), z) && IsDone(Run(s, turns), z, c)
  {
    var r := Run(s, turns);
    var loads := if c.StartTask? then [c.load] else [];
    RunInv(s, turns);
    RunInv(s, turns + [Turn(t, c)]);
    RunBegins(s, turns, t, c);
    Begun(r, t, c);
    GoesOn(r, Step(r, t, c), t, loads);
    var z :| Leads(Alone(t), Step(r, t, c), z) && Inv(z) && Going(r, z, t, loads) && AllIdle(z);
    IdleWaitsForNothing(z);
    assert IsDone(r, z, c);
  }
}
