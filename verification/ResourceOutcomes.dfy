/**
 An operation on a resource cache that meets no other one, from any state in
 which no thread is at work: what it leaves of the entries and of the unused list.
 */
module ResourceOutcomes {
  import opened Counting
  import opened Iterations
  import opened ResourceEntry
  import opened ResourceEffects
  import opened ResourceInvariant
  import opened ResourceLists
  import opened ResourceRuns
  import opened ResourceSolo

  /** A step of the thread. */
  function Alone(t: nat, throws: bool): State -> State {
    (s: State) => if t < |s.threads| then Step(s, t, Next(s.threads[t].pc, throws)) else s
  }

  /** The thread comes to this state by itself. */
  ghost predicate ComesTo(s: State, t: nat, throws: bool, z: State) { Leads(Alone(t, throws), s, z) }

  lemma ComesFirst(s: State, t: nat, throws: bool, z: State)
    requires t < |s.threads| && ComesTo(Step(s, t, Next(s.threads[t].pc, throws)), t, throws, z)
    ensures ComesTo(s, t, throws, z)
  {
    LeadsFirst(Alone(t, throws), s, z);
  }

  ghost predicate OthersIdle(s: State, t: nat) { forall u | 0 <= u < |s.threads| && u != t :: s.threads[u].pc.Idle? }

  // --- the steps at an entry ------------------------------------------------

  function With(s: State, t: nat, e: nat, x: (Entry, Thread)): State
    requires t < |s.threads| && e < |s.entries|
  {
    s.(entries := s.entries[e := x.0], threads := s.threads[t := x.1])
  }

  lemma StepIsWork(s: State, t: nat, e: nat, throws: bool)
    requires t < |s.threads| && e < |s.entries| && OthersIdle(s, t) && !Out(s.threads[t].pc) && s.threads[t].entry == e
    ensures Step(s, t, Next(s.threads[t].pc, throws)) == With(s, t, e, Work((s.entries[e], s.threads[t]), throws))
    ensures var l' := Work((s.entries[e], s.threads[t]), throws).1; l'.pc.Idle? || l'.entry == e
  {
    WordStepAt(s.entries[e], s.threads[t], Next(s.threads[t].pc, throws), true);
  }

  lemma {:induction false} Lifts(s: State, t: nat, e: nat, throws: bool, path: seq<(Entry, Thread)>, y: (Entry, Thread))
    requires t < |s.threads| && e < |s.entries| && OthersIdle(s, t)
    requires Out(s.threads[t].pc) || s.threads[t].entry == e
    requires IsPath(Worker(throws), path, (s.entries[e], s.threads[t]), y)
    ensures ComesTo(s, t, throws, With(s, t, e, y))
    decreases |path|
  {
    var x := (s.entries[e], s.threads[t]);
    if |path| == 1 || Out(x.1.pc) {
      PathStays(throws, path, x, y);
      assert With(s, t, e, x) == s;
      LeadsHere(Alone(t, throws), s);
    } else {
      StepIsWork(s, t, e, throws);
      PathRest(Worker(throws), path, x, y);
      var next := With(s, t, e, Work(x, throws));
      Lifts(next, t, e, throws, path[1..], y);
      assert With(next, t, e, y) == With(s, t, e, y);
      ComesFirst(s, t, throws, With(s, t, e, y));
    }
  }

  lemma {:induction false} PathStays(throws: bool, path: seq<(Entry, Thread)>, x: (Entry, Thread), y: (Entry, Thread))
    requires IsPath(Worker(throws), path, x, y) && (|path| == 1 || Out(x.1.pc))
    ensures y == x
    decreases |path|
  {
    if |path| > 1 {
      PathRest(Worker(throws), path, x, y);
      PathStays(throws, path[1..], x, y);
    }
  }

  lemma LeadsComes(s: State, t: nat, e: nat, throws: bool, y: (Entry, Thread))
    requires t < |s.threads| && e < |s.entries| && OthersIdle(s, t)
    requires Out(s.threads[t].pc) || s.threads[t].entry == e
    requires GetsTo((s.entries[e], s.threads[t]), throws, y)
    ensures ComesTo(s, t, throws, With(s, t, e, y))
  {
    var path :| IsPath(Worker(throws), path, (s.entries[e], s.threads[t]), y);
    Lifts(s, t, e, throws, path, y);
  }

  // --- the push to the unused list ------------------------------------------

  /** The entry is the first of the list. */
  function Queued(s: State, t: nat, e: nat): State
    requires t < |s.threads| && e < |s.next|
  {
    s.(next := s.next[e := s.head], head := e, chain := [e] + s.chain,
       threads := s.threads[t := s.threads[t].(pc := Idle, seen := s.head)])
  }

  lemma PushComes(s: State, t: nat, throws: bool)
    requires t < |s.threads| && OthersIdle(s, t) && s.threads[t].pc.PushLoad? && s.threads[t].entry < |s.next|
    ensures ComesTo(s, t, throws, Queued(s, t, s.threads[t].entry))
  {
    var l := s.threads[t];
    var a := SetThread(s, t, l.(pc := PushLink, seen := s.head));
    var b := SetThread(s.(next := s.next[l.entry := s.head]), t, l.(pc := PushSwap, seen := s.head));
    assert Step(s, t, Go) == a;
    assert Step(a, t, Go) == b;
    assert Step(b, t, Go) == Queued(s, t, l.entry);
    LeadsHere(Alone(t, throws), Queued(s, t, l.entry));
    ComesFirst(b, t, throws, Queued(s, t, l.entry));
    ComesFirst(a, t, throws, Queued(s, t, l.entry));
    ComesFirst(s, t, throws, Queued(s, t, l.entry));
  }

  // --- operations -----------------------------------------------------------

  /** What the operation leaves. */
  ghost predicate IsDone(r: State, z: State, c: Choice, throws: bool)
    requires AtEntry(c) && c.e < |r.entries|
  {
    var en, after := r.entries[c.e], After(r.entries[c.e], c, throws);
    && AllIdle(z) && |z.threads| == |r.threads| && z.entries == r.entries[c.e := after]
    && z.chain == (if after.count == 0 && !en.queued then [c.e] else []) + r.chain
  }

  lemma BeginsAt(r: State, t: nat, c: Choice)
    requires AllIdle(r) && t < |r.threads| && AtEntry(c) && c.e < |r.entries|
    ensures Step(r, t, c) == With(r, t, c.e, BeginStep(r.entries[c.e], r.threads[t], c, true))
  {}

  lemma EntryComes(r: State, t: nat, c: Choice, throws: bool) returns (l: Thread)
    requires Inv(r) && AllIdle(r) && t < |r.threads| && AtEntry(c) && c.e < |r.entries|
    requires !r.entries[c.e].freed && CanBegin(r.entries[c.e], c)
    ensures l.entry == c.e
    ensures ComesTo(Step(r, t, c), t, throws, With(r, t, c.e, Done(r.entries[c.e], l, After(r.entries[c.e], c, throws))))
  {
    var en, x := r.entries[c.e], BeginStep(r.entries[c.e], r.threads[t], c, true);
    l := x.1;
    AtRestRests(r, c.e);
    BeginsAt(r, t, c);
    EntryEnds(en, r.threads[t], c, throws);
    BegunIsAt(en, r.threads[t], c);
    BegunComes(r, t, c.e, throws, x, Done(en, l, After(en, c, throws)));
  }

  lemma BegunComes(r: State, t: nat, e: nat, throws: bool, x: (Entry, Thread), y: (Entry, Thread))
    requires AllIdle(r) && t < |r.threads| && e < |r.entries| && x.1.entry == e && GetsTo(x, throws, y)
    ensures ComesTo(With(r, t, e, x), t, throws, With(r, t, e, y))
  {
    LeadsComes(With(r, t, e, x), t, e, throws, y);
    assert With(With(r, t, e, x), t, e, y) == With(r, t, e, y);
  }

  lemma BegunIsAt(en: Entry, l: Thread, c: Choice)
    requires l.pc.Idle? && AtEntry(c) && CanBegin(en, c)
    ensures BeginStep(en, l, c, true).1.entry == c.e
  {}

  lemma EndsDone(r: State, t: nat, c: Choice, throws: bool)
    requires Inv(r) && AllIdle(r) && t < |r.threads| && AtEntry(c) && c.e < |r.entries|
    requires !r.entries[c.e].freed && CanBegin(r.entries[c.e], c)
    ensures exists z :: ComesTo(Step(r, t, c), t, throws, z) && IsDone(r, z, c, throws)
  {
    var l := EntryComes(r, t, c, throws);
    EndsFrom(r, t, c, throws, l, After(r.entries[c.e], c, throws));
  }

  lemma EndsFrom(r: State, t: nat, c: Choice, throws: bool, l: Thread, after: Entry)
    requires |r.next| == |r.entries| && AllIdle(r) && t < |r.threads| && AtEntry(c) && c.e < |r.entries| && l.entry == c.e
    requires after == After(r.entries[c.e], c, throws)
    requires ComesTo(Step(r, t, c), t, throws, With(r, t, c.e, Done(r.entries[c.e], l, after)))
    ensures exists z :: ComesTo(Step(r, t, c), t, throws, z) && IsDone(r, z, c, throws)
  {
    var z := With(r, t, c.e, Done(r.entries[c.e], l, after));
    if after.count == 0 && !r.entries[c.e].queued {
      PushComes(z, t, throws);
      LeadsOn(Alone(t, throws), Step(r, t, c), z, Queued(z, t, c.e));
      assert IsDone(r, Queued(z, t, c.e), c, throws);
    } else {
      assert [] + r.chain == r.chain;
      assert IsDone(r, z, c, throws);
    }
  }

  lemma RunBegins(s: State, turns: seq<Turn>, t: nat, c: Choice)
    requires t < |Run(s, turns).threads|
    ensures Run(s, turns + [Turn(t, c)]) == Step(Run(s, turns), t, c)
  {
    var begun := turns + [Turn(t, c)];
    assert begun[..|begun| - 1] == turns;
  }

  /** A copy, a drop, a wait, a find, a task or the end of a read, begun when no
      thread is at work and met by none, ends and leaves the entry as After says:
      a wait ends with the load done, Ready or Failed as the loader did or did
      not throw, a find gives a handle and starts a parked load again, a task
      parks the load of an entry without handles, and the last count queues the
      entry. All other entries are as they were. */
  lemma OperationEnds(s: State, turns: seq<Turn>, t: nat, c: Choice, throws: bool)
    requires Initial(s) && AllIdle(Run(s, turns)) && t < |Run(s, turns).threads|
    requires AtEntry(c) && c.e < |Run(s, turns).entries|
    requires !Run(s, turns).entries[c.e].freed && CanBegin(Run(s, turns).entries[c.e], c)
    ensures exists z :: ComesTo(Run(s, turns + [Turn(t, c)]), t, throws, z) && IsDone(Run(s, turns), z, c, throws)
  {
    RunInv(s, turns);
    RunBegins(s, turns, t, c);
    EndsDone(Run(s, turns), t, c, throws);
  }

  // --- new entries ----------------------------------------------------------

  /** A new entry: with its load for a task, loaded, or with its file to be read. */
  function NewEntry(c: Choice, throws: bool): Entry {
    if c.MakeBind? then Entry(2, false, false, false, Loading, true, true, false, 1, 1, 0, true, 0)
    else if c.MakeDirect? then Entry(1, false, false, true, LoadedState(throws), false, true, false, 1, 0, 0, false, 0)
    else Entry(2, false, false, true, Loading, false, true, false, 1, 0, 1, false, 0)
  }

  lemma MakeComes(r: State, t: nat, c: Choice, throws: bool)
    requires AllIdle(r) && t < |r.threads| && Makes(c)
    ensures exists z :: ComesTo(Step(r, t, c), t, throws, z) && IsMade(r, z, c, throws)
  {
    var b := MakeStep(r, t, c);
    assert Step(r, t, c) == b;
    StepIsWork(b, t, |r.entries|, throws);
    MadeWork(b.entries[|r.entries|], b.threads[t], c, throws);
    var z := With(b, t, |r.entries|, Work((b.entries[|r.entries|], b.threads[t]), throws));
    LeadsHere(Alone(t, throws), z);
    ComesFirst(b, t, throws, z);
    assert IsMade(r, z, c, throws);
  }

  lemma MadeWork(en: Entry, l: Thread, c: Choice, throws: bool)
    requires en == (if c.MakeBind? then BOUND else if c.MakeDirect? then LOADED else READ) && Makes(c)
    requires l.pc == if c.MakeBind? then PushTask else if c.MakeDirect? then DirectFill else MakeRead
    ensures Work((en, l), throws) == (NewEntry(c, throws), l.(pc := Idle))
  {}

  ghost predicate IsMade(r: State, z: State, c: Choice, throws: bool) {
    AllIdle(z) && |z.threads| == |r.threads| && z.entries == r.entries + [NewEntry(c, throws)] && z.chain == r.chain
  }

  /** bind, load and a bind with a file of a key that is not there. */
  lemma MakeEnds(s: State, turns: seq<Turn>, t: nat, c: Choice, throws: bool)
    requires Initial(s) && AllIdle(Run(s, turns)) && t < |Run(s, turns).threads| && Makes(c)
    ensures exists z :: ComesTo(Run(s, turns + [Turn(t, c)]), t, throws, z) && IsMade(Run(s, turns), z, c, throws)
  {
    RunBegins(s, turns, t, c);
    MakeComes(Run(s, turns), t, c, throws);
  }
}
