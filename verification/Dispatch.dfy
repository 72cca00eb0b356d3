/**
 How the loads of a resource cache get onto the background lane (resource.hpp):
 startTask pushes one, dispatch combines requests so that one thread at a time
 dispatches, at most limit loads run. One step of a thread per access to an
 atomic; the lists are kept as sequences.
 */
module Dispatch {
  import opened Counting
  import opened Lists

  datatype Pc = Idle | Push | Request | Take | Check | Start | Submit | Settle | Ended

  /** load: what the thread pushes or submits; handled: the requests it answers. */
  datatype Thread = Thread(pc: Pc, load: nat, handled: nat)

  /** incoming: newest first; queued: oldest first; running: on the lane, raised
      before a load is submitted. live: loads on the lane that have not ended;
      pushed, submitted: all loads so far; hand: the load taken from queued to
      be submitted. */
  datatype State = State(
    limit: nat, requests: nat, incoming: seq<nat>, queued: seq<nat>, running: nat, live: nat,
    pushed: seq<nat>, submitted: seq<nat>, hand: seq<nat>, threads: seq<Thread>)

  /** What an idle thread begins: a task for a load, or the end of one that ran or was dropped. */
  datatype Choice = StartTask(load: nat) | TaskDone

  predicate InDispatch(pc: Pc) { pc.Take? || pc.Check? || pc.Start? || pc.Submit? || pc.Settle? }

  function SetThread(s: State, t: nat, l: Thread): State
    requires t < |s.threads|
  {
    s.(threads := s.threads[t := l])
  }

  /** One step of thread t. */
  function Step(s: State, t: nat, c: Choice): State
    requires t < |s.threads|
  {
    var l := s.threads[t];
    match l.pc
    case Idle =>
      (match c
       case StartTask(load) => SetThread(s, t, l.(pc := Push, load := load))
       case TaskDone => if s.live > 0 then SetThread(s.(live := s.live - 1), t, l.(pc := Ended)) else s)
    case Push => SetThread(s.(incoming := [l.load] + s.incoming, pushed := s.pushed + [l.load]), t, l.(pc := Request))
    // dispatch
    case Request => SetThread(s.(requests := s.requests + 1), t, l.(pc := if s.requests != 0 then Idle else Take, handled := 1))
    case Settle =>
      var left := if s.requests >= l.handled then s.requests - l.handled else 0;
      SetThread(s.(requests := left), t, if left == 0 then l.(pc := Idle) else l.(pc := Take, handled := left))
    // dispatchOnce
    case Take => SetThread(s.(incoming := [], queued := s.queued + Reversed(s.incoming)), t, l.(pc := Check))
    case Check => SetThread(s, t, l.(pc := if s.queued != [] && s.running < s.limit then Start else Settle))
    case Start =>
      if s.queued == [] then s
      else SetThread(s.(queued := s.queued[1..], hand := [s.queued[0]], running := s.running + 1), t,
                     l.(pc := Submit, load := s.queued[0]))
    case Submit => SetThread(s.(live := s.live + 1, submitted := s.submitted + [l.load], hand := []), t, l.(pc := Check))
    // taskDone
    case Ended => SetThread(s.(running := if s.running > 0 then s.running - 1 else 0), t, l.(pc := Request))
  }

  // --- the invariant --------------------------------------------------------

  /** One thread dispatches exactly while requests are not settled. */
  ghost predicate Single(s: State) {
    && (forall t, u | 0 <= t < |s.threads| && 0 <= u < |s.threads| && t != u && InDispatch(s.threads[t].pc) ::
          !InDispatch(s.threads[u].pc))
    && (forall t | 0 <= t < |s.threads| && InDispatch(s.threads[t].pc) :: 1 <= s.threads[t].handled <= s.requests)
    && (s.requests > 0 ==> exists t :: 0 <= t < |s.threads| && InDispatch(s.threads[t].pc))
  }

  function OnLane(): Thread -> nat { (l: Thread) => if l.pc.Submit? || l.pc.Ended? then 1 else 0 }

  ghost predicate Limited(s: State) {
    && s.limit > 0 && s.running <= s.limit
    && s.running == s.live + Sum(OnLane(), s.threads)
    && (forall t | 0 <= t < |s.threads| && s.threads[t].pc.Start? :: s.running < s.limit && s.queued != [])
  }

  /** Loads are submitted in the order they were pushed. */
  ghost predicate Ordered(s: State) {
    && s.submitted + s.hand + s.queued + Reversed(s.incoming) == s.pushed
    && (forall t | 0 <= t < |s.threads| && s.threads[t].pc.Submit? :: s.hand == [s.threads[t].load])
    && (s.hand != [] ==> exists t :: 0 <= t < |s.threads| && s.threads[t].pc.Submit?)
  }

  /** Will look at what was pushed. */
  predicate WillTake(requests: nat, l: Thread) {
    l.pc.Request? || l.pc.Take? || (InDispatch(l.pc) && requests > l.handled)
  }

  /** Will look whether a load can start. */
  predicate WillCheck(requests: nat, l: Thread) {
    WillTake(requests, l) || l.pc.Check? || l.pc.Start? || l.pc.Submit?
  }

  /** Whatever waits and could start, some thread will look at. */
  ghost predicate Watched(s: State) {
    && (s.incoming != [] ==> exists t :: 0 <= t < |s.threads| && WillTake(s.requests, s.threads[t]))
    && (s.queued != [] && s.running < s.limit ==> exists t :: 0 <= t < |s.threads| && WillCheck(s.requests, s.threads[t]))
  }

  ghost predicate Inv(s: State) { Single(s) && Limited(s) && Ordered(s) && Watched(s) }

  // --- steps ----------------------------------------------------------------

  lemma StepSingle(s: State, t: nat, c: Choice)
    requires Single(s) && t < |s.threads|
    ensures Single(Step(s, t, c))
  {
    var s', l := Step(s, t, c), s.threads[t];
    if s'.requests > 0 {
      if InDispatch(s'.threads[t].pc) {
      } else {
        var u :| 0 <= u < |s.threads| && InDispatch(s.threads[u].pc);
        assert s'.threads[u].pc == s.threads[u].pc;
      }
    }
  }

  /** What a step does to the count of the loads that run. */
  lemma StepOnLane(s: State, t: nat, c: Choice)
    requires t < |s.threads| && s.running >= OnLane()(s.threads[t])
    ensures var s' := Step(s, t, c);
      && s'.threads == s.threads[t := s'.threads[t]]
      && s'.running + s.live + OnLane()(s.threads[t]) == s.running + s'.live + OnLane()(s'.threads[t])
  {}

  lemma StepLimited(s: State, t: nat, c: Choice)
    requires Single(s) && Limited(s) && t < |s.threads|
    ensures Limited(Step(s, t, c))
  {
    SumAtLeast(OnLane(), s.threads, t);
    StepOnLane(s, t, c);
    SumUpdate(OnLane(), s.threads, t, Step(s, t, c).threads[t]);
    StepStaysLimited(s, t, c);
  }

  lemma StepStaysLimited(s: State, t: nat, c: Choice)
    requires Single(s) && t < |s.threads| && s.limit > 0 && s.running <= s.limit
    requires forall u | 0 <= u < |s.threads| && s.threads[u].pc.Start? :: s.running < s.limit && s.queued != []
    ensures var s' := Step(s, t, c);
      && s'.limit > 0 && s'.running <= s'.limit
      && (forall u | 0 <= u < |s'.threads| && s'.threads[u].pc.Start? :: s'.running < s'.limit && s'.queued != [])
  {}

  lemma ReversedCons(x: nat, list: seq<nat>)
    ensures Reversed([x] + list) == Reversed(list) + [x]
  {
    assert ([x] + list)[1..] == list;
  }

  lemma StepOrdered(s: State, t: nat, c: Choice)
    requires Single(s) && Ordered(s) && t < |s.threads| && (s.threads[t].pc.Start? ==> s.hand == [])
    ensures Ordered(Step(s, t, c))
  {
    var s', l := Step(s, t, c), s.threads[t];
    StepKeepsOrder(s, t, c);
    if s'.hand != [] && !s'.threads[t].pc.Submit? {
      var u :| 0 <= u < |s.threads| && s.threads[u].pc.Submit?;
      assert s'.threads[u].pc == s.threads[u].pc;
    }
  }

  lemma StepKeepsOrder(s: State, t: nat, c: Choice)
    requires s.submitted + s.hand + s.queued + Reversed(s.incoming) == s.pushed && t < |s.threads|
    requires s.threads[t].pc.Submit? ==> s.hand == [s.threads[t].load]
    requires s.threads[t].pc.Start? ==> s.hand == []
    ensures var s' := Step(s, t, c); s'.submitted + s'.hand + s'.queued + Reversed(s'.incoming) == s'.pushed
  {
    match s.threads[t].pc
    case Push => PushKeepsOrder(s, t, c);
    case Start => StartKeepsOrder(s, t, c);
    case _ =>
  }

  lemma PushKeepsOrder(s: State, t: nat, c: Choice)
    requires s.submitted + s.hand + s.queued + Reversed(s.incoming) == s.pushed && t < |s.threads| && s.threads[t].pc.Push?
    ensures var s' := Step(s, t, c); s'.submitted + s'.hand + s'.queued + Reversed(s'.incoming) == s'.pushed
  {
    ReversedCons(s.threads[t].load, s.incoming);
  }

  lemma StartKeepsOrder(s: State, t: nat, c: Choice)
    requires s.submitted + s.hand + s.queued + Reversed(s.incoming) == s.pushed && t < |s.threads| && s.threads[t].pc.Start?
    requires s.hand == []
    ensures var s' := Step(s, t, c); s'.submitted + s'.hand + s'.queued + Reversed(s'.incoming) == s'.pushed
  {
    assert s.queued == [] || s.queued == [s.queued[0]] + s.queued[1..];
  }

  /** Nothing is in hand while the dispatching thread is anywhere else. */
  lemma HandIsEmpty(s: State, t: nat)
    requires Single(s) && Ordered(s) && t < |s.threads| && s.threads[t].pc.Start?
    ensures s.hand == []
  {}

  /** A thread that will look still will once another has stepped, or that one
      settled all requests and the first was not dispatching. */
  lemma OthersGoOn(s: State, t: nat, c: Choice, u: nat)
    requires Single(s) && t < |s.threads| && u < |s.threads| && u != t
    ensures WillTake(s.requests, s.threads[u]) ==> WillTake(Step(s, t, c).requests, Step(s, t, c).threads[u])
    ensures WillCheck(s.requests, s.threads[u]) ==> WillCheck(Step(s, t, c).requests, Step(s, t, c).threads[u])
  {}

  /** A request left to the thread that dispatches. */
  lemma RequestIsSeen(s: State, t: nat, c: Choice) returns (u: nat)
    requires Single(s) && t < |s.threads| && s.threads[t].pc.Request?
    ensures u < |s.threads| && WillTake(Step(s, t, c).requests, Step(s, t, c).threads[u])
  {
    if s.requests == 0 {
      u := t;
    } else {
      u :| 0 <= u < |s.threads| && InDispatch(s.threads[u].pc);
    }
  }

  lemma StepWatchesIncoming(s: State, t: nat, c: Choice)
    requires Single(s) && Watched(s) && t < |s.threads| && Step(s, t, c).incoming != []
    ensures exists u :: 0 <= u < |s.threads| && WillTake(Step(s, t, c).requests, Step(s, t, c).threads[u])
  {
    var s', l := Step(s, t, c), s.threads[t];
    if l.pc.Request? {
      var u := RequestIsSeen(s, t, c);
    } else if !WillTake(s'.requests, s'.threads[t]) {
      var u :| 0 <= u < |s.threads| && WillTake(s.requests, s.threads[u]);
      OthersGoOn(s, t, c, u);
    }
  }

  lemma StepWatchesQueued(s: State, t: nat, c: Choice)
    requires Single(s) && Watched(s) && t < |s.threads|
    requires Step(s, t, c).queued != [] && Step(s, t, c).running < s.limit
    ensures exists u :: 0 <= u < |s.threads| && WillCheck(Step(s, t, c).requests, Step(s, t, c).threads[u])
  {
    var s', l := Step(s, t, c), s.threads[t];
    if l.pc.Request? {
      var u := RequestIsSeen(s, t, c);
    } else if !WillCheck(s'.requests, s'.threads[t]) {
      var u :| 0 <= u < |s.threads| && WillCheck(s.requests, s.threads[u]);
      OthersGoOn(s, t, c, u);
    }
  }

  lemma StepWatched(s: State, t: nat, c: Choice)
    requires Single(s) && Watched(s) && t < |s.threads|
    ensures Watched(Step(s, t, c))
  {
    var s' := Step(s, t, c);
    if s'.incoming != [] {
      StepWatchesIncoming(s, t, c);
    }
    if s'.queued != [] && s'.running < s.limit {
      StepWatchesQueued(s, t, c);
    }
  }

  lemma StepKeeps(s: State, t: nat, c: Choice)
    requires Inv(s) && t < |s.threads|
    ensures Inv(Step(s, t, c))
  {
    StepSingle(s, t, c);
    StepLimited(s, t, c);
    if s.threads[t].pc.Start? {
      HandIsEmpty(s, t);
    }
    StepOrdered(s, t, c);
    StepWatched(s, t, c);
  }

  // --- runs -----------------------------------------------------------------

  datatype Turn = Turn(thread: nat, choice: Choice)

  predicate Initial(s: State) {
    && s.limit > 0 && s.requests == 0 && s.running == 0 && s.live == 0
    && s.incoming == [] && s.queued == [] && s.pushed == [] && s.submitted == [] && s.hand == []
    && (forall t | 0 <= t < |s.threads| :: s.threads[t].pc.Idle?)
  }

  /** The state after the turns, in any interleaving; a turn of no thread does nothing. */
  function Run(s: State, turns: seq<Turn>): State {
    if turns == [] then s
    else
      var before := Run(s, turns[..|turns| - 1]);
      var last := turns[|turns| - 1];
      if last.thread < |before.threads| then Step(before, last.thread, last.choice) else before
  }

  lemma StepLimit(s: State, t: nat, c: Choice)
    requires t < |s.threads|
    ensures Step(s, t, c).limit == s.limit
  {}

  lemma {:induction false} RunInv(s: State, turns: seq<Turn>)
    requires Initial(s)
    ensures Inv(Run(s, turns)) && Run(s, turns).limit == s.limit
  {
    if turns == [] {
      SumZero(OnLane(), s.threads);
    } else {
      RunInv(s, turns[..|turns| - 1]);
      var before := Run(s, turns[..|turns| - 1]);
      var last := turns[|turns| - 1];
      if last.thread < |before.threads| {
        StepKeeps(before, last.thread, last.choice);
        StepLimit(before, last.thread, last.choice);
      }
    }
  }

  /** In every interleaving: one thread dispatches at a time, no more loads run
      than the limit allows, and loads start in the order they were pushed. */
  lemma LoadsStartInOrder(s: State, turns: seq<Turn>, t: nat, u: nat)
    requires Initial(s)
    ensures var r := Run(s, turns);
      && (t < |r.threads| && u < |r.threads| && t != u && InDispatch(r.threads[t].pc) ==> !InDispatch(r.threads[u].pc))
      && r.live <= r.running <= s.limit
      && r.submitted <= r.pushed
  {
    RunInv(s, turns);
    OrderedIsPrefix(Run(s, turns));
  }

  lemma OrderedIsPrefix(s: State)
    requires s.submitted + s.hand + s.queued + Reversed(s.incoming) == s.pushed
    ensures s.submitted <= s.pushed
  {
    assert s.pushed == s.submitted + (s.hand + s.queued + Reversed(s.incoming));
  }

  lemma IdleWaitsForNothing(s: State)
    requires Inv(s) && forall t | 0 <= t < |s.threads| :: s.threads[t].pc.Idle?
    ensures s.incoming == [] && s.submitted + s.queued == s.pushed && (s.queued == [] || s.live == s.limit)
  {
    SumZero(OnLane(), s.threads);
    assert s.hand == [];
  }

  /** And nothing is forgotten: once no thread is in dispatch or owes one, no
      load waits, or the limit is reached. */
  lemma AtRestNothingWaits(s: State, turns: seq<Turn>)
    requires Initial(s)
    requires forall t | 0 <= t < |Run(s, turns).threads| :: Run(s, turns).threads[t].pc.Idle?
    ensures var r := Run(s, turns);
      && r.incoming == [] && r.submitted + r.queued == r.pushed
      && (r.queued == [] || r.live == s.limit)
  {
    RunInv(s, turns);
    IdleWaitsForNothing(Run(s, turns));
  }
}
