/** What allocate comes to that no other thread meets, and what reset leaves. */
module MonotonicSolo {
  import opened Options
  import opened Iterations
  import opened MonotonicFit
  import opened Monotonic
  import opened MonotonicRuns

  /** A step of the thread in allocate; asked for a block, the upstream puts it at start. */
  ghost function Alone(t: nat, start: nat): State -> State {
    (s: State) => if Shape(s) && t < |s.threads| && !s.threads[t].pc.Idle? then Step(s, t, Answer(start)) else s
  }

  lemma Steps(s: State, t: nat, start: nat, y: State, z: State)
    requires Shape(s) && t < |s.threads| && !s.threads[t].pc.Idle?
    requires y == Step(s, t, Answer(start)) && Leads(Alone(t, start), y, z)
    ensures Leads(Alone(t, start), s, z)
  {
    LeadsFirst(Alone(t, start), s, z);
  }

  ghost predicate OthersIdle(s: State, t: nat) { forall u | 0 <= u < |s.threads| && u != t :: s.threads[u].pc.Idle? }

  /** A thread whose request fits the range returns the first place that does. */
  lemma FitComes(s: State, t: nat, start: nat)
    requires Shape(s) && t < |s.threads| && s.threads[t].pc.LoadCurrent?
    requires Fit(s.current, s.end, s.threads[t].bytes, s.threads[t].alignment) != 0
    ensures exists z :: Leads(Alone(t, start), s, z) && IsTaken(s, z, t)
  {
    var a := Step(s, t, Answer(start));
    var b := Step(a, t, Answer(start));
    var z := Step(b, t, Answer(start));
    LeadsHere(Alone(t, start), z);
    Steps(b, t, start, z, z);
    Steps(a, t, start, b, z);
    Steps(s, t, start, a, z);
    assert IsTaken(s, z, t);
  }

  ghost predicate IsTaken(s: State, z: State, t: nat)
    requires t < |s.threads| && s.threads[t].alignment > 0
  {
    var l := s.threads[t];
    var first := Fit(s.current, s.end, l.bytes, l.alignment);
    && |z.threads| == |s.threads| && z.threads == s.threads[t := z.threads[t]] && z.threads[t].pc.Idle?
    && z == s.(current := first + l.bytes, taken := s.taken + [Range(first, l.bytes, l.alignment)], homes := s.homes + [s.home],
               threads := z.threads)
  }

  lemma LockSteps(s: State, t: nat, start: nat)
    requires Shape(s) && t < |s.threads| && OthersIdle(s, t) && (s.threads[t].pc.LockFull? || s.threads[t].pc.LockCustom?)
    ensures Step(s, t, Answer(start)) ==
      SetThread(s, t, s.threads[t].(pc := if s.threads[t].pc.LockFull? then Recheck else FetchCustom))
  {
    assert Unlocked(s);
  }

  /** Where it does not fit, the thread comes to the mutex. */
  lemma FullComes(s: State, t: nat, start: nat) returns (m: State)
    requires Shape(s) && t < |s.threads| && s.threads[t].pc.LoadCurrent? && OthersIdle(s, t)
    requires Fit(s.current, s.end, s.threads[t].bytes, s.threads[t].alignment) == 0
    ensures Shape(m) && Leads(Alone(t, start), s, m) && |m.threads| == |s.threads|
    ensures var l, k := s.threads[t], m.threads[t];
      && m == SetThread(s, t, k) && k.bytes == l.bytes && k.alignment == l.alignment
      && k.pc == if FitsNewBlock(s.blockSize, l.bytes, l.alignment) then Recheck else FetchCustom
  {
    var a := Step(s, t, Answer(start));
    var b := Step(a, t, Answer(start));
    LockSteps(b, t, start);
    m := Step(b, t, Answer(start));
    LeadsHere(Alone(t, start), m);
    Steps(b, t, start, m, m);
    Steps(a, t, start, b, m);
    Steps(s, t, start, a, m);
  }

  /** With a block of its own the range stays. */
  ghost predicate IsCustom(s: State, z: State, t: nat, start: nat)
    requires t < |s.threads|
  {
    var l := s.threads[t];
    && |z.threads| == |s.threads| && z.threads == s.threads[t := z.threads[t]] && z.threads[t].pc.Idle?
    && z == s.(blocks := s.blocks + [Block(start, l.bytes)], taken := s.taken + [Range(start, l.bytes, l.alignment)],
               homes := s.homes + [|s.blocks|], threads := z.threads)
  }

  lemma CustomComes(s: State, t: nat, start: nat)
    requires Shape(s) && t < |s.threads| && s.threads[t].pc.FetchCustom?
    requires Fresh(s.blocks, Block(start, s.threads[t].bytes), s.threads[t].alignment)
    ensures exists z :: Leads(Alone(t, start), s, z) && IsCustom(s, z, t, start)
  {
    var z := Step(s, t, Answer(start));
    LeadsHere(Alone(t, start), z);
    Steps(s, t, start, z, z);
    assert IsCustom(s, z, t, start);
  }

  /** A new block is installed, and the thread looks again. */
  lemma InstallComes(s: State, t: nat, start: nat) returns (m: State)
    requires Shape(s) && t < |s.threads| && s.threads[t].pc.FetchBlock?
    requires Fresh(s.blocks, Block(start, s.blockSize), MAX_ALIGN)
    ensures Shape(m) && Leads(Alone(t, start), s, m) && |m.threads| == |s.threads|
    ensures var l, k := s.threads[t], m.threads[t];
      && k.pc.LoadCurrent? && k.bytes == l.bytes && k.alignment == l.alignment
      && m == s.(blocks := s.blocks + [Block(start, s.blockSize)], home := |s.blocks|, current := start,
                 end := start + s.blockSize - 1, threads := s.threads[t := k])
  {
    var a := SetThread(s.(blocks := s.blocks + [Block(start, s.blockSize)]), t, s.threads[t].(pc := InstallNull, block := |s.blocks|));
    assert Step(s, t, Answer(start)) == a;
    m := RangeComes(a, t, start);
    Steps(s, t, start, a, m);
  }

  /** installRange. */
  lemma RangeComes(s: State, t: nat, start: nat) returns (m: State)
    requires Shape(s) && t < |s.threads| && s.threads[t].pc.InstallNull? && s.blocks[s.threads[t].block].size > 0
    ensures Shape(m) && Leads(Alone(t, start), s, m)
    ensures var l, block := s.threads[t], s.blocks[s.threads[t].block];
      m == s.(home := l.block, current := block.start, end := block.start + block.size - 1,
              threads := s.threads[t := l.(pc := LoadCurrent)])
  {
    var a := Step(s, t, Answer(start));
    var b := Step(a, t, Answer(start));
    m := Step(b, t, Answer(start));
    LeadsHere(Alone(t, start), m);
    Steps(b, t, start, m, m);
    Steps(a, t, start, b, m);
    Steps(s, t, start, a, m);
  }

  /** The state after an allocation: from the range if it has room, else from a
      new block, or from one of its own if no new block has room. */
  ghost predicate IsAllocated(r: State, z: State, bytes: nat, alignment: nat, start: nat)
    requires alignment > 0
  {
    var here := Fit(r.current, r.end, bytes, alignment);
    && AllIdle(z) && |z.threads| == |r.threads| && |z.taken| == |r.taken| + 1 && z.taken[..|r.taken|] == r.taken
    && z.taken[|r.taken|] == Range(if here != 0 then here
                                   else if FitsNewBlock(r.blockSize, bytes, alignment)
                                   then Fit(start, start + r.blockSize - 1, bytes, alignment)
                                   else start, bytes, alignment)
    && z.blocks == r.blocks + (if here != 0 then []
                               else [Block(start, if FitsNewBlock(r.blockSize, bytes, alignment) then r.blockSize else bytes)])
    && (if here == 0 && !FitsNewBlock(r.blockSize, bytes, alignment) then z.current == r.current && z.end == r.end
        else z.current == z.taken[|r.taken|].start + bytes
             && z.end == if here != 0 then r.end else start + r.blockSize - 1)
  }

  ghost predicate Begun(r: State, s: State, t: nat, bytes: nat, alignment: nat) {
    && AllIdle(r) && t < |r.threads| && s == SetThread(r, t, r.threads[t].(pc := LoadCurrent, bytes := bytes, alignment := alignment))
    && Shape(s) && IsAlignment(alignment) && bytes < ADDRESSES
  }

  lemma BegunFits(r: State, s: State, t: nat, bytes: nat, alignment: nat, start: nat)
    requires Begun(r, s, t, bytes, alignment) && Fit(r.current, r.end, bytes, alignment) != 0
    ensures exists z :: Leads(Alone(t, start), s, z) && IsAllocated(r, z, bytes, alignment, start)
  {
    FitComes(s, t, start);
    var z :| Leads(Alone(t, start), s, z) && IsTaken(s, z, t);
    assert r.blocks + [] == r.blocks;
    assert IsAllocated(r, z, bytes, alignment, start);
  }

  lemma BegunCustom(r: State, s: State, t: nat, bytes: nat, alignment: nat, start: nat)
    requires Begun(r, s, t, bytes, alignment) && Fit(r.current, r.end, bytes, alignment) == 0
    requires !FitsNewBlock(r.blockSize, bytes, alignment) && Fresh(r.blocks, Block(start, bytes), alignment)
    ensures exists z :: Leads(Alone(t, start), s, z) && IsAllocated(r, z, bytes, alignment, start)
  {
    var m := FullComes(s, t, start);
    CustomComes(m, t, start);
    var z :| Leads(Alone(t, start), m, z) && IsCustom(m, z, t, start);
    LeadsOn(Alone(t, start), s, m, z);
    assert IsAllocated(r, z, bytes, alignment, start);
  }

  lemma RecheckComes(s: State, t: nat, start: nat) returns (m: State)
    requires Shape(s) && t < |s.threads| && s.threads[t].pc.Recheck?
    requires Fit(s.current, s.end, s.threads[t].bytes, s.threads[t].alignment) == 0
    requires Fresh(s.blocks, Block(start, s.blockSize), MAX_ALIGN)
    ensures Shape(m) && Leads(Alone(t, start), s, m) && |m.threads| == |s.threads|
    ensures var l, k := s.threads[t], m.threads[t];
      && k.pc.LoadCurrent? && k.bytes == l.bytes && k.alignment == l.alignment
      && m == s.(blocks := s.blocks + [Block(start, s.blockSize)], home := |s.blocks|, current := start,
                 end := start + s.blockSize - 1, threads := s.threads[t := k])
  {
    var a := Step(s, t, Answer(start));
    m := InstallComes(a, t, start);
    Steps(s, t, start, a, m);
  }

  lemma BegunNew(r: State, s: State, t: nat, bytes: nat, alignment: nat, start: nat)
    requires Begun(r, s, t, bytes, alignment) && Fit(r.current, r.end, bytes, alignment) == 0
    requires FitsNewBlock(r.blockSize, bytes, alignment) && Fresh(r.blocks, Block(start, r.blockSize), MAX_ALIGN)
    ensures exists z :: Leads(Alone(t, start), s, z) && IsAllocated(r, z, bytes, alignment, start)
  {
    var m := FullComes(s, t, start);
    var k := RecheckComes(m, t, start);
    LeadsOn(Alone(t, start), s, m, k);
    FreshBlockFits(Block(start, r.blockSize), bytes, alignment);
    FitComes(k, t, start);
    var z :| Leads(Alone(t, start), k, z) && IsTaken(k, z, t);
    LeadsOn(Alone(t, start), s, k, z);
    assert IsAllocated(r, z, bytes, alignment, start);
  }

  lemma RunBegins(s: State, turns: seq<Turn>, t: nat, c: Choice)
    requires Initial(s) && t < |Run(s, turns).threads| && Shape(Run(s, turns))
    ensures Run(s, turns + [Turn(t, c)]) == Step(Run(s, turns), t, c)
  {
    var begun := turns + [Turn(t, c)];
    assert begun[..|begun| - 1] == turns;
  }

  /** What the upstream may be asked for. */
  ghost predicate MayAnswer(r: State, bytes: nat, alignment: nat, start: nat) {
    if FitsNewBlock(r.blockSize, bytes, alignment) then Fresh(r.blocks, Block(start, r.blockSize), MAX_ALIGN)
    else Fresh(r.blocks, Block(start, bytes), alignment)
  }

  lemma InvShape(s: State)
    requires Inv(s)
    ensures Shape(s)
  {
    forall t | 0 <= t < |s.threads|
      ensures 0 < s.threads[t].alignment < ADDRESSES && (InInstall(s.threads[t].pc) ==> s.threads[t].block < |s.blocks|)
    {
      assert ThreadOk(s, s.threads[t]);
    }
  }

  /** allocate, begun when no thread is in it and met by none, ends with what it
      was asked for: the first place with room in the range, else in a new block,
      else a block of its own, where the range stays as it was. */
  lemma AllocateEnds(s: State, turns: seq<Turn>, t: nat, bytes: nat, alignment: nat, start: nat)
    requires Initial(s) && AllIdle(Run(s, turns)) && t < |Run(s, turns).threads|
    requires IsAlignment(alignment) && bytes < ADDRESSES && MayAnswer(Run(s, turns), bytes, alignment, start)
    ensures exists z :: Leads(Alone(t, start), Run(s, turns + [Turn(t, Allocate(bytes, alignment))]), z)
                        && IsAllocated(Run(s, turns), z, bytes, alignment, start)
  {
    var r, c := Run(s, turns), Allocate(bytes, alignment);
    RunInv(s, turns);
    InvShape(r);
    RunBegins(s, turns, t, c);
    var b := Step(r, t, c);
    assert Begun(r, b, t, bytes, alignment);
    if Fit(r.current, r.end, bytes, alignment) != 0 {
      BegunFits(r, b, t, bytes, alignment, start);
    } else if FitsNewBlock(r.blockSize, bytes, alignment) {
      BegunNew(r, b, t, bytes, alignment, start);
    } else {
      BegunCustom(r, b, t, bytes, alignment, start);
    }
  }

  /** reset and release leave nothing returned, and all of the buffer of the
      caller, or without one of the first block if it is kept, to allocate from. */
  lemma ResetEnds(s: State, turns: seq<Turn>, t: nat, c: Choice)
    requires Initial(s) && AllIdle(Run(s, turns)) && t < |Run(s, turns).threads| && (c.Reset? || c.Release?)
    ensures var r, z := Run(s, turns), Run(s, turns + [Turn(t, c)]);
      && z.threads == r.threads && z.taken == []
      && z.blocks == (if r.buffer.Some? then [r.buffer.value] else if c.Release? || r.blocks == [] then [] else [r.blocks[0]])
      && (if z.blocks == [] || z.blocks[0].size == 0 then z.current == 0
          else z.current == z.blocks[0].start && z.end == z.blocks[0].Last())
  {
    RunInv(s, turns);
    InvShape(Run(s, turns));
    RunBegins(s, turns, t, c);
  }

  // --- next to others -------------------------------------------------------

  /** What the thread was last asked for. */
  ghost function LastAsked(s: State, turns: seq<Turn>, t: nat): (nat, nat) {
    if turns == [] then (0, MAX_ALIGN)
    else
      var init, last := turns[..|turns| - 1], turns[|turns| - 1];
      if last.thread == t && last.choice.Allocate? && CanAsk(Run(s, init), t, last.choice)
      then (last.choice.bytes, last.choice.alignment)
      else LastAsked(s, init, t)
  }

  ghost predicate CanAsk(s: State, t: nat, c: Choice)
    requires c.Allocate?
  {
    t < |s.threads| && s.threads[t].pc.Idle? && IsAlignment(c.alignment) && c.bytes < ADDRESSES
  }

  /** Only its thread changed, and not what that was asked for. */
  ghost predicate SameRequests(s: State, u: nat, s': State) {
    && u < |s.threads| == |s'.threads| && s'.threads == s.threads[u := s'.threads[u]]
    && s'.threads[u].bytes == s.threads[u].bytes && s'.threads[u].alignment == s.threads[u].alignment
  }

  lemma AllocateSame(s: State, u: nat, c: Choice)
    requires Shape(s) && u < |s.threads| && InAllocate(s.threads[u].pc)
    ensures SameRequests(s, u, AllocateStep(s, u, c))
  {}

  lemma InstallSame(s: State, u: nat)
    requires Shape(s) && u < |s.threads| && InInstall(s.threads[u].pc)
    ensures SameRequests(s, u, InstallStep(s, u))
  {}

  lemma BlockSame(s: State, u: nat, c: Choice, open: bool)
    requires Shape(s) && u < |s.threads|
    ensures SameRequests(s, u, BlockStep(s, u, c, open))
  {}

  lemma StepKeepsRequest(s: State, u: nat, c: Choice, t: nat)
    requires Shape(s) && u < |s.threads| && t < |s.threads|
    ensures |Step(s, u, c).threads| == |s.threads|
    ensures var l, l' := s.threads[t], Step(s, u, c).threads[t];
      (l'.bytes, l'.alignment) ==
      if u == t && c.Allocate? && CanAsk(s, t, c) then (c.bytes, c.alignment) else (l.bytes, l.alignment)
  {
    var pc := s.threads[u].pc;
    if !pc.Idle? {
      if InAllocate(pc) {
        AllocateSame(s, u, c);
      } else if InInstall(pc) {
        InstallSame(s, u);
      } else {
        BlockSame(s, u, c, Unlocked(s));
      }
    }
  }

  lemma StaysIdle(s: State, u: nat, c: Choice, t: nat)
    requires Shape(s) && u < |s.threads| && t < |s.threads| && s.threads[t].pc.Idle?
    ensures |Step(s, u, c).threads| == |s.threads|
    ensures Step(s, u, c).threads[t].pc.Idle? || (u == t && c.Allocate? && CanAsk(s, t, c))
  {}

  /** A thread in allocate has what it was asked for. */
  predicate HasRequest(l: Thread, asked: (nat, nat)) { !l.pc.Idle? ==> (l.bytes, l.alignment) == asked }

  lemma StepHasRequest(s: State, u: nat, c: Choice, t: nat, asked: (nat, nat))
    requires Shape(s) && u < |s.threads| && t < |s.threads| && HasRequest(s.threads[t], asked)
    ensures |Step(s, u, c).threads| == |s.threads|
    ensures HasRequest(Step(s, u, c).threads[t],
                       if u == t && c.Allocate? && CanAsk(s, t, c) then (c.bytes, c.alignment) else asked)
  {
    StepKeepsRequest(s, u, c, t);
    if s.threads[t].pc.Idle? {
      StaysIdle(s, u, c, t);
    }
  }

  lemma RunShape(s: State, turns: seq<Turn>)
    requires Initial(s)
    ensures Shape(Run(s, turns))
  {
    RunInv(s, turns);
    InvShape(Run(s, turns));
  }

  lemma {:induction false} HasItsRequest(s: State, turns: seq<Turn>, t: nat)
    requires Initial(s) && t < |s.threads|
    ensures |Run(s, turns).threads| == |s.threads| && HasRequest(Run(s, turns).threads[t], LastAsked(s, turns, t))
  {
    if turns != [] {
      var init, last := turns[..|turns| - 1], turns[|turns| - 1];
      RunShape(s, init);
      HasItsRequest(s, init, t);
      if last.thread < |s.threads| {
        StepHasRequest(Run(s, init), last.thread, last.choice, t, LastAsked(s, init, t));
      }
    }
  }

  /** The upstream has no memory. */
  predicate UpstreamFails(l: Thread, c: Choice) { c.Fail? && (l.pc.FetchBlock? || l.pc.FetchCustom?) }

  lemma StepEndsWithRange(s: State, t: nat, c: Choice)
    requires Shape(s) && t < |s.threads| && !s.threads[t].pc.Idle? && Step(s, t, c).threads[t].pc.Idle?
    ensures var l, s' := s.threads[t], Step(s, t, c);
      if UpstreamFails(l, c) then s'.taken == s.taken
      else |s'.taken| == |s.taken| + 1 && s'.taken == s.taken + [Range(s'.taken[|s.taken|].start, l.bytes, l.alignment)]
  {}

  /** In every interleaving: allocate ends with a range of the size and alignment
      it was asked for, or because the upstream has no memory. */
  lemma EndsWithWhatItAsked(s: State, turns: seq<Turn>, t: nat, c: Choice)
    requires Initial(s) && t < |s.threads| && t < |Run(s, turns).threads| && !Run(s, turns).threads[t].pc.Idle?
    requires Shape(Run(s, turns)) && Step(Run(s, turns), t, c).threads[t].pc.Idle?
    ensures var r, z := Run(s, turns), Step(Run(s, turns), t, c);
      var (bytes, alignment) := LastAsked(s, turns, t);
      || (UpstreamFails(r.threads[t], c) && z.taken == r.taken)
      || (|z.taken| == |r.taken| + 1 && z.taken == r.taken + [Range(z.taken[|r.taken|].start, bytes, alignment)])
  {
    HasItsRequest(s, turns, t);
    StepEndsWithRange(Run(s, turns), t, c);
  }
}
