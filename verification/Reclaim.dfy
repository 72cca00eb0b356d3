/**
 When a resource that forceLoad replaced is ended (resource.hpp and
 background.cpp): not while a task of the lane may still read it. Threads run
 tasks, replace resources and look which old ones may go, one step per access
 to an epoch, a slot or a pointer. The list of the replaced is used under its
 mutex.
 */
module Reclaim {
  import opened Counting

  datatype Since = Idle | At(epoch: nat)

  datatype Replaced = Replaced(resource: nat, mark: nat)

  datatype Pc =
    | Rest
    // LaneBusy around a task
    | LoadEpoch | StoreSince | Task
    // replace
    | Exchange | Mark | Push
    // freeReplaced: every replaced one against every slot
    | Look | Free

  /** epoch: what the thread loaded; held: what its task read; hand: the
      resource or resources it took out; at, slot: the loops of freeReplaced. */
  datatype Thread = Thread(
    pc: Pc, entry: nat, epoch: nat, held: set<nat>, hand: seq<nat>, mark: nat, at: nat, slot: nat)

  /** current: the resource of every entry; made: how many there were; ended:
      those whose destructor ran. */
  datatype State = State(
    epoch: nat, since: seq<Since>, current: seq<nat>, made: nat, replaced: seq<Replaced>, ended: multiset<nat>,
    threads: seq<Thread>)

  datatype Choice = Enter | Read(entry: nat) | Leave | Force(entry: nat) | Check

  predicate Shape(s: State) {
    |s.since| == |s.threads|
  }

  /** Holds the mutex of the replaced. */
  predicate Locked(pc: Pc) { pc.Look? }

  function SetThread(s: State, t: nat, l: Thread): State
    requires t < |s.threads|
  {
    s.(threads := s.threads[t := l])
  }

  predicate Passes(since: Since, mark: nat) { since.Idle? || since.epoch >= mark }

  function TaskStep(s: State, t: nat, c: Choice): State
    requires Shape(s) && t < |s.threads|
  {
    var l := s.threads[t];
    match l.pc
    case LoadEpoch => SetThread(s, t, l.(pc := StoreSince, epoch := s.epoch))
    case StoreSince => SetThread(s.(since := s.since[t := At(l.epoch)]), t, l.(pc := Task))
    case Task =>
      if c.Read? && c.entry < |s.current| then SetThread(s, t, l.(held := l.held + {s.current[c.entry]}))
      else if c.Leave? then SetThread(s.(since := s.since[t := Since.Idle]), t, l.(pc := Rest, held := {}))
      else s
    case _ => s
  }

  function ReplaceStep(s: State, t: nat, open: bool): State
    requires Shape(s) && t < |s.threads|
  {
    var l := s.threads[t];
    match l.pc
    case Exchange =>
      if l.entry >= |s.current| then SetThread(s, t, l.(pc := Rest))
      else
        SetThread(s.(current := s.current[l.entry := s.made], made := s.made + 1), t,
                  l.(pc := Mark, hand := [s.current[l.entry]]))
    case Mark => SetThread(s.(epoch := s.epoch + 1), t, l.(pc := Push, mark := s.epoch + 1))
    case Push =>
      if open && l.hand != []
      then SetThread(s.(replaced := [Replaced(l.hand[0], l.mark)] + s.replaced), t, l.(pc := Rest, hand := []))
      else s
    case _ => s
  }

  function FreeStep(s: State, t: nat): State
    requires Shape(s) && t < |s.threads|
  {
    var l := s.threads[t];
    match l.pc
    case Look =>
      if l.at >= |s.replaced| then SetThread(s, t, l.(pc := Free))
      else if l.slot >= |s.since| then
        SetThread(s.(replaced := s.replaced[..l.at] + s.replaced[l.at + 1..]), t,
                  l.(hand := l.hand + [s.replaced[l.at].resource], slot := 0))
      else if Passes(s.since[l.slot], s.replaced[l.at].mark) then SetThread(s, t, l.(slot := l.slot + 1))
      else SetThread(s, t, l.(at := l.at + 1, slot := 0))
    case Free =>
      if l.hand == [] then SetThread(s, t, l.(pc := Rest))
      else SetThread(s.(ended := s.ended + multiset{l.hand[0]}), t, l.(hand := l.hand[1..]))
    case _ => s
  }

  predicate InTask(pc: Pc) { pc.LoadEpoch? || pc.StoreSince? || pc.Task? }
  predicate InReplace(pc: Pc) { pc.Exchange? || pc.Mark? || pc.Push? }

  /** One step of thread t. */
  function Step(s: State, t: nat, c: Choice): State
    requires Shape(s) && t < |s.threads|
  {
    var l := s.threads[t];
    var open := forall u | 0 <= u < |s.threads| :: !Locked(s.threads[u].pc);
    if l.pc.Rest? then
      SetThread(s, t, if c.Enter? then l.(pc := LoadEpoch) else if c.Force? then l.(pc := Exchange, entry := c.entry)
                      else if c.Check? && open then l.(pc := Look, at := 0, slot := 0) else l)
    else if InTask(l.pc) then TaskStep(s, t, c)
    else if InReplace(l.pc) then ReplaceStep(s, t, open)
    else FreeStep(s, t)
  }

  // --- the invariant --------------------------------------------------------

  /** A task's epoch is one that was; it holds what it read since. */
  ghost predicate Epochs(s: State) requires Shape(s) {
    forall t | 0 <= t < |s.threads| ::
      && (s.threads[t].pc.StoreSince? ==> s.threads[t].epoch <= s.epoch)
      && (s.since[t].At? ==> s.since[t].epoch <= s.epoch)
      && (s.threads[t].held != {} ==> s.threads[t].pc.Task?)
      && (s.threads[t].pc.Task? ==> s.since[t].At?)
  }

  /** Whoever still holds a replaced resource entered before its mark. */
  ghost predicate Marked(s: State) requires Shape(s) {
    && (forall k, t | 0 <= k < |s.replaced| && 0 <= t < |s.threads| && s.replaced[k].resource in s.threads[t].held ::
          !Passes(s.since[t], s.replaced[k].mark))
    && (forall u, t | 0 <= u < |s.threads| && 0 <= t < |s.threads| && s.threads[u].pc.Push? && s.threads[u].hand != [] &&
                      s.threads[u].hand[0] in s.threads[t].held ::
          !Passes(s.since[t], s.threads[u].mark))
  }

  /** What is looked at, no thread seen already holds; what is about to end, nobody does. */
  ghost predicate Looked(s: State) requires Shape(s) {
    && (forall u, t | 0 <= u < |s.threads| && 0 <= t < |s.threads| && s.threads[u].pc.Look? &&
                      s.threads[u].at < |s.replaced| && t < s.threads[u].slot ::
          s.replaced[s.threads[u].at].resource !in s.threads[t].held)
    && (forall u, t, r | 0 <= u < |s.threads| && 0 <= t < |s.threads| && (s.threads[u].pc.Look? || s.threads[u].pc.Free?) &&
                         r in s.threads[u].hand ::
          r !in s.threads[t].held)
    && (forall t, r | 0 <= t < |s.threads| && r in s.ended :: r !in s.threads[t].held)
  }

  ghost predicate Mutex(s: State) {
    && (forall t, u | 0 <= t < |s.threads| && 0 <= u < |s.threads| && t != u && Locked(s.threads[t].pc) ::
          !Locked(s.threads[u].pc))
    && (forall t | 0 <= t < |s.threads| && (s.threads[t].pc.Mark? || s.threads[t].pc.Push?) :: |s.threads[t].hand| == 1)
    && (forall t | 0 <= t < |s.threads| && s.threads[t].hand != [] ::
          s.threads[t].pc.Mark? || s.threads[t].pc.Push? || s.threads[t].pc.Look? || s.threads[t].pc.Free?)
  }

  function HandWeight(r: nat): Thread -> nat { (l: Thread) => multiset(l.hand)[r] }

  function Resources(replaced: seq<Replaced>): (m: seq<nat>)
    ensures |m| == |replaced|
  {
    seq(|replaced|, k requires 0 <= k < |replaced| => replaced[k].resource)
  }

  /** Every resource made is current, in a hand, replaced or ended, once. */
  ghost predicate Once(s: State) {
    forall r: nat ::
      multiset(s.current)[r] + Sum(HandWeight(r), s.threads) + multiset(Resources(s.replaced))[r] + s.ended[r] ==
      if r < s.made then 1 else 0
  }

  ghost predicate Safe(s: State) { Shape(s) && Epochs(s) && Marked(s) && Looked(s) && Mutex(s) }

  ghost predicate Inv(s: State) { Safe(s) && Once(s) }

  /** Neither replaced nor on the way there or to its end. */
  ghost predicate Nowhere(s: State, r: nat) {
    && (forall k | 0 <= k < |s.replaced| :: s.replaced[k].resource != r)
    && (forall u | 0 <= u < |s.threads| :: r !in s.threads[u].hand)
    && r !in s.ended
  }

  /** What is current is nowhere else. */
  lemma CurrentIsNowhere(s: State, e: nat)
    requires Once(s) && e < |s.current|
    ensures Nowhere(s, s.current[e])
  {
    var r := s.current[e];
    assert r in multiset(s.current);
    forall k | 0 <= k < |s.replaced| ensures s.replaced[k].resource != r {
      assert Resources(s.replaced)[k] == s.replaced[k].resource;
      assert s.replaced[k].resource in multiset(Resources(s.replaced));
    }
    forall u | 0 <= u < |s.threads| ensures r !in s.threads[u].hand {
      SumAtLeast(HandWeight(r), s.threads, u);
    }
  }

  // --- steps: who holds what ----------------------------------------------------------------

  /** A step that hands no resource on keeps each in its one place. */
  lemma SameHandKeepsOnce(s: State, t: nat, l: Thread, s': State)
    requires Once(s) && t < |s.threads| && l.hand == s.threads[t].hand
    requires s'.threads == s.threads[t := l] && s'.current == s.current && s'.made == s.made
    requires s'.replaced == s.replaced && s'.ended == s.ended
    ensures Once(s')
  {
    forall r: nat ensures Sum(HandWeight(r), s'.threads) == Sum(HandWeight(r), s.threads) {
      SumUpdate(HandWeight(r), s.threads, t, l);
    }
  }

  /** One that hands it on from one place to another does. */
  lemma HandKeepsOnce(s: State, t: nat, l: Thread, s': State)
    requires Once(s) && t < |s.threads| && s'.threads == s.threads[t := l]
    requires forall r: nat ::
               multiset(s'.current)[r] + multiset(l.hand)[r] + multiset(Resources(s'.replaced))[r] + s'.ended[r] +
               (if r < s.made then 1 else 0) ==
               multiset(s.current)[r] + multiset(s.threads[t].hand)[r] + multiset(Resources(s.replaced))[r] + s.ended[r] +
               (if r < s'.made then 1 else 0)
    ensures Once(s')
  {
    forall r: nat
      ensures multiset(s'.current)[r] + Sum(HandWeight(r), s'.threads) + multiset(Resources(s'.replaced))[r] + s'.ended[r] ==
              if r < s'.made then 1 else 0
    {
      SumUpdate(HandWeight(r), s.threads, t, l);
    }
  }

  lemma RestMarked(s: State, t: nat, c: Choice)
    requires Safe(s) && t < |s.threads| && s.threads[t].pc.Rest?
    ensures var s' := Step(s, t, c); Shape(s') && Epochs(s') && Mutex(s') && Marked(s')
  {}

  lemma RestLooked(s: State, t: nat, c: Choice)
    requires Safe(s) && t < |s.threads| && s.threads[t].pc.Rest?
    ensures var s' := Step(s, t, c); Shape(s') && Looked(s')
  {}

  lemma TaskMarked(s: State, t: nat, c: Choice)
    requires Safe(s) && t < |s.threads| && InTask(s.threads[t].pc) && !(s.threads[t].pc.Task? && c.Read?)
    ensures var s' := TaskStep(s, t, c); Shape(s') && Epochs(s') && Mutex(s') && Marked(s')
  {}

  lemma TaskLooked(s: State, t: nat, c: Choice)
    requires Safe(s) && t < |s.threads| && InTask(s.threads[t].pc) && !(s.threads[t].pc.Task? && c.Read?)
    ensures var s' := TaskStep(s, t, c); Shape(s') && Looked(s')
  {}

  lemma ReadMarked(s: State, t: nat, c: Choice)
    requires Safe(s) && t < |s.threads| && s.threads[t].pc.Task? && c.Read? && c.entry < |s.current|
    requires Nowhere(s, s.current[c.entry])
    ensures var s' := TaskStep(s, t, c); Shape(s') && Epochs(s') && Mutex(s') && Marked(s')
  {}

  lemma ReadLooked(s: State, t: nat, c: Choice)
    requires Safe(s) && t < |s.threads| && s.threads[t].pc.Task? && c.Read? && c.entry < |s.current|
    requires Nowhere(s, s.current[c.entry])
    ensures var s' := TaskStep(s, t, c); Shape(s') && Looked(s')
  {}

  lemma ExchangeMutex(s: State, t: nat, open: bool)
    requires Safe(s) && t < |s.threads| && s.threads[t].pc.Exchange?
    ensures var s' := ReplaceStep(s, t, open); Shape(s') && Epochs(s') && Mutex(s')
  {}

  lemma ExchangeMarked(s: State, t: nat, open: bool)
    requires Safe(s) && t < |s.threads| && s.threads[t].pc.Exchange?
    ensures var s' := ReplaceStep(s, t, open); Shape(s') && Epochs(s') && Mutex(s') && Marked(s')
  {
    ExchangeMutex(s, t, open);
  }

  lemma ExchangeLooked(s: State, t: nat, open: bool)
    requires Safe(s) && t < |s.threads| && s.threads[t].pc.Exchange?
    ensures var s' := ReplaceStep(s, t, open); Shape(s') && Looked(s')
  {}

  lemma MarkMarked(s: State, t: nat, open: bool)
    requires Safe(s) && t < |s.threads| && s.threads[t].pc.Mark?
    ensures var s' := ReplaceStep(s, t, open); Shape(s') && Epochs(s') && Mutex(s') && Marked(s')
  {}

  lemma MarkLooked(s: State, t: nat, open: bool)
    requires Safe(s) && t < |s.threads| && s.threads[t].pc.Mark?
    ensures var s' := ReplaceStep(s, t, open); Shape(s') && Looked(s')
  {}

  lemma PushMarked(s: State, t: nat, open: bool)
    requires Safe(s) && t < |s.threads| && s.threads[t].pc.Push?
    ensures var s' := ReplaceStep(s, t, open); Shape(s') && Epochs(s') && Mutex(s') && Marked(s')
  {}

  lemma PushLooked(s: State, t: nat, open: bool)
    requires Safe(s) && t < |s.threads| && s.threads[t].pc.Push?
    requires open ==> forall u | 0 <= u < |s.threads| :: !Locked(s.threads[u].pc)
    ensures var s' := ReplaceStep(s, t, open); Shape(s') && Looked(s')
  {}

  lemma TakeOutMarked(s: State, t: nat)
    requires Safe(s) && t < |s.threads| && s.threads[t].pc.Look? && s.threads[t].at < |s.replaced| && s.threads[t].slot >= |s.since|
    ensures var s' := FreeStep(s, t); Shape(s') && Epochs(s') && Mutex(s') && Marked(s')
  {}

  lemma TakeOutLooked(s: State, t: nat)
    requires Safe(s) && t < |s.threads| && s.threads[t].pc.Look? && s.threads[t].at < |s.replaced| && s.threads[t].slot >= |s.since|
    ensures var s' := FreeStep(s, t); Shape(s') && Looked(s')
  {}

  lemma LookMarked(s: State, t: nat)
    requires Safe(s) && t < |s.threads| && s.threads[t].pc.Look? && (s.threads[t].at >= |s.replaced| || s.threads[t].slot < |s.since|)
    ensures var s' := FreeStep(s, t); Shape(s') && Epochs(s') && Mutex(s') && Marked(s')
  {
    LookIsShaped(s, t);
  }

  lemma LookIsShaped(s: State, t: nat)
    requires Safe(s) && t < |s.threads| && s.threads[t].pc.Look? && (s.threads[t].at >= |s.replaced| || s.threads[t].slot < |s.since|)
    ensures var s' := FreeStep(s, t); Shape(s') && Epochs(s') && Mutex(s')
  {}

  lemma LookLooked(s: State, t: nat)
    requires Safe(s) && t < |s.threads| && s.threads[t].pc.Look? && (s.threads[t].at >= |s.replaced| || s.threads[t].slot < |s.since|)
    ensures var s' := FreeStep(s, t); Shape(s') && Looked(s')
  {}

  lemma FreeMarked(s: State, t: nat)
    requires Safe(s) && t < |s.threads| && s.threads[t].pc.Free?
    ensures var s' := FreeStep(s, t); Shape(s') && Epochs(s') && Mutex(s') && Marked(s')
  {}

  lemma FreeLooked(s: State, t: nat)
    requires Safe(s) && t < |s.threads| && s.threads[t].pc.Free?
    ensures var s' := FreeStep(s, t); Shape(s') && Looked(s')
  {}

  lemma RestKeeps(s: State, t: nat, c: Choice)
    requires Inv(s) && t < |s.threads| && s.threads[t].pc.Rest?
    ensures Inv(Step(s, t, c))
  {
    SameHandKeepsOnce(s, t, Step(s, t, c).threads[t], Step(s, t, c));
    RestMarked(s, t, c);
    RestLooked(s, t, c);
  }

  lemma ReadKeeps(s: State, t: nat, c: Choice)
    requires Inv(s) && t < |s.threads| && s.threads[t].pc.Task? && c.Read? && c.entry < |s.current|
    ensures Inv(TaskStep(s, t, c))
  {
    CurrentIsNowhere(s, c.entry);
    SameHandKeepsOnce(s, t, TaskStep(s, t, c).threads[t], TaskStep(s, t, c));
    ReadMarked(s, t, c);
    ReadLooked(s, t, c);
  }

  lemma TaskStepKeeps(s: State, t: nat, c: Choice)
    requires Inv(s) && t < |s.threads| && InTask(s.threads[t].pc)
    ensures Inv(TaskStep(s, t, c))
  {
    if !(s.threads[t].pc.Task? && c.Read?) {
      SameHandKeepsOnce(s, t, TaskStep(s, t, c).threads[t], TaskStep(s, t, c));
      TaskMarked(s, t, c);
      TaskLooked(s, t, c);
    } else if c.entry < |s.current| {
      ReadKeeps(s, t, c);
    } else {
      assert TaskStep(s, t, c) == s;
    }
  }

  lemma ExchangeOnce(s: State, t: nat)
    requires Once(s) && Mutex(s) && Shape(s) && t < |s.threads| && s.threads[t].pc.Exchange? && s.threads[t].entry < |s.current|
    ensures Once(ReplaceStep(s, t, true))
  {
    var s', e := ReplaceStep(s, t, true), s.threads[t].entry;
    var old_ := s.current[e];
    assert s.threads[t].hand == [];
    assert multiset(s'.current) == multiset(s.current) - multiset{old_} + multiset{s.made};
    assert old_ in multiset(s.current);
    HandKeepsOnce(s, t, s'.threads[t], s');
  }

  lemma ExchangeKeeps(s: State, t: nat, open: bool)
    requires Inv(s) && t < |s.threads| && s.threads[t].pc.Exchange?
    ensures Inv(ReplaceStep(s, t, open))
  {
    if s.threads[t].entry < |s.current| {
      ExchangeOnce(s, t);
    } else {
      SameHandKeepsOnce(s, t, ReplaceStep(s, t, open).threads[t], ReplaceStep(s, t, open));
    }
    ExchangeMarked(s, t, open);
    ExchangeLooked(s, t, open);
  }

  lemma MarkKeeps(s: State, t: nat, open: bool)
    requires Inv(s) && t < |s.threads| && s.threads[t].pc.Mark?
    ensures Inv(ReplaceStep(s, t, open))
  {
    SameHandKeepsOnce(s, t, ReplaceStep(s, t, open).threads[t], ReplaceStep(s, t, open));
    MarkMarked(s, t, open);
    MarkLooked(s, t, open);
  }

  lemma PushOnce(s: State, t: nat)
    requires Once(s) && Shape(s) && Mutex(s) && t < |s.threads| && s.threads[t].pc.Push?
    ensures Once(ReplaceStep(s, t, true))
  {
    var s', l := ReplaceStep(s, t, true), s.threads[t];
    assert l.hand == [l.hand[0]];
    assert Resources(s'.replaced) == [l.hand[0]] + Resources(s.replaced);
    HandKeepsOnce(s, t, s'.threads[t], s');
  }

  lemma PushKeeps(s: State, t: nat, open: bool)
    requires Inv(s) && t < |s.threads| && s.threads[t].pc.Push?
    requires open ==> forall u | 0 <= u < |s.threads| :: !Locked(s.threads[u].pc)
    ensures Inv(ReplaceStep(s, t, open))
  {
    if open {
      PushOnce(s, t);
      PushMarked(s, t, open);
      PushLooked(s, t, open);
    } else {
      assert ReplaceStep(s, t, open) == s;
    }
  }

  lemma TakeOutOnce(s: State, t: nat)
    requires Shape(s) && Once(s) && t < |s.threads| && s.threads[t].pc.Look?
    requires s.threads[t].at < |s.replaced| && s.threads[t].slot >= |s.since|
    ensures Once(FreeStep(s, t))
  {
    var s', l := FreeStep(s, t), s.threads[t];
    var r := s.replaced[l.at].resource;
    assert Resources(s.replaced) == Resources(s.replaced)[..l.at] + [r] + Resources(s.replaced)[l.at + 1..];
    assert Resources(s'.replaced) == Resources(s.replaced)[..l.at] + Resources(s.replaced)[l.at + 1..];
    HandKeepsOnce(s, t, s'.threads[t], s');
  }

  lemma TakeOutKeeps(s: State, t: nat)
    requires Inv(s) && t < |s.threads| && s.threads[t].pc.Look?
    requires s.threads[t].at < |s.replaced| && s.threads[t].slot >= |s.since|
    ensures Inv(FreeStep(s, t))
  {
    TakeOutOnce(s, t);
    TakeOutMarked(s, t);
    TakeOutLooked(s, t);
  }

  lemma LookKeeps(s: State, t: nat)
    requires Inv(s) && t < |s.threads| && s.threads[t].pc.Look?
    requires s.threads[t].at >= |s.replaced| || s.threads[t].slot < |s.since|
    ensures Inv(FreeStep(s, t))
  {
    SameHandKeepsOnce(s, t, FreeStep(s, t).threads[t], FreeStep(s, t));
    LookMarked(s, t);
    LookLooked(s, t);
  }

  lemma FreeKeeps(s: State, t: nat)
    requires Inv(s) && t < |s.threads| && s.threads[t].pc.Free?
    ensures Inv(FreeStep(s, t))
  {
    var s', l := FreeStep(s, t), s.threads[t];
    if l.hand != [] {
      assert l.hand == [l.hand[0]] + l.hand[1..];
      HandKeepsOnce(s, t, s'.threads[t], s');
    } else {
      SameHandKeepsOnce(s, t, s'.threads[t], s');
    }
    FreeMarked(s, t);
    FreeLooked(s, t);
  }

  lemma ReplaceStepKeeps(s: State, t: nat, open: bool)
    requires Inv(s) && t < |s.threads| && InReplace(s.threads[t].pc)
    requires open ==> forall u | 0 <= u < |s.threads| :: !Locked(s.threads[u].pc)
    ensures Inv(ReplaceStep(s, t, open))
  {
    match s.threads[t].pc
    case Exchange => ExchangeKeeps(s, t, open);
    case Mark => MarkKeeps(s, t, open);
    case Push => PushKeeps(s, t, open);
  }

  lemma FreeStepKeeps(s: State, t: nat)
    requires Inv(s) && t < |s.threads| && (s.threads[t].pc.Look? || s.threads[t].pc.Free?)
    ensures Inv(FreeStep(s, t))
  {
    var l := s.threads[t];
    if l.pc.Free? {
      FreeKeeps(s, t);
    } else if l.at < |s.replaced| && l.slot >= |s.since| {
      TakeOutKeeps(s, t);
    } else {
      LookKeeps(s, t);
    }
  }

  /** Every step of every thread keeps the invariant. */
  lemma StepKeeps(s: State, t: nat, c: Choice)
    requires Inv(s) && t < |s.threads|
    ensures Inv(Step(s, t, c))
  {
    var pc := s.threads[t].pc;
    if pc.Rest? {
      RestKeeps(s, t, c);
    } else if InTask(pc) {
      TaskStepKeeps(s, t, c);
    } else if InReplace(pc) {
      var open := forall u | 0 <= u < |s.threads| :: !Locked(s.threads[u].pc);
      ReplaceStepKeeps(s, t, open);
    } else {
      FreeStepKeeps(s, t);
    }
  }

  // --- runs -----------------------------------------------------------------

  datatype Turn = Turn(thread: nat, choice: Choice)

  ghost predicate Initial(s: State) {
    && |s.since| == |s.threads| && s.replaced == [] && s.ended == multiset{}
    && (forall t | 0 <= t < |s.threads| ::
          s.since[t].Idle? && s.threads[t].pc.Rest? && s.threads[t].held == {} && s.threads[t].hand == [])
    && (forall r: nat :: multiset(s.current)[r] == if r < s.made then 1 else 0)
  }

  /** The state after the turns, in any interleaving; a turn of no thread does nothing. */
  function Run(s: State, turns: seq<Turn>): State {
    if turns == [] then s
    else
      var before := Run(s, turns[..|turns| - 1]);
      var last := turns[|turns| - 1];
      if Shape(before) && last.thread < |before.threads| then Step(before, last.thread, last.choice) else before
  }

  lemma InitialInv(s: State)
    requires Initial(s)
    ensures Inv(s)
  {
    forall r: nat ensures Sum(HandWeight(r), s.threads) == 0 {
      SumZero(HandWeight(r), s.threads);
    }
  }

  lemma {:induction false} RunInv(s: State, turns: seq<Turn>)
    requires Initial(s)
    ensures Inv(Run(s, turns))
  {
    if turns == [] {
      InitialInv(s);
    } else {
      RunInv(s, turns[..|turns| - 1]);
      var before := Run(s, turns[..|turns| - 1]);
      var last := turns[|turns| - 1];
      if last.thread < |before.threads| {
        StepKeeps(before, last.thread, last.choice);
      }
    }
  }

  /** In every interleaving: a resource that was replaced and ended is current
      nowhere, no task holds it, and it ended once; each other one is in one
      place. */
  lemma EndedIsUnread(s: State, turns: seq<Turn>, r: nat)
    requires Initial(s) && r in Run(s, turns).ended
    ensures var z := Run(s, turns);
      && z.ended[r] == 1 && r !in z.current
      && (forall t | 0 <= t < |z.threads| :: r !in z.threads[t].held && r !in z.threads[t].hand)
  {
    RunInv(s, turns);
    var z := Run(s, turns);
    assert multiset(z.current)[r] + Sum(HandWeight(r), z.threads) + multiset(Resources(z.replaced))[r] + z.ended[r] <= 1;
    forall t | 0 <= t < |z.threads| ensures r !in z.threads[t].hand {
      SumAtLeast(HandWeight(r), z.threads, t);
    }
  }

  /** And freeReplaced ends nothing that a task holds: not one it is about to. */
  lemma EndsOnlyUnread(s: State, turns: seq<Turn>, u: nat, t: nat)
    requires Initial(s) && u < |Run(s, turns).threads| && t < |Run(s, turns).threads|
    requires Run(s, turns).threads[u].pc.Free?
    ensures forall r | r in Run(s, turns).threads[u].hand :: r !in Run(s, turns).threads[t].held
  {
    RunInv(s, turns);
  }
}
