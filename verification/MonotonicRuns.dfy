/** What every step of the bump allocator keeps, and what holds in every run. */
module MonotonicRuns {
  import opened Options
  import opened MonotonicFit
  import opened Monotonic

  lemma ApartInside(a: Block, b: Block, x: Block, y: Block)
    requires Apart(a, b)
    requires a.start <= x.start && x.start + x.size <= a.start + a.size
    requires b.start <= y.start && y.start + y.size <= b.start + b.size
    ensures Apart(x, y)
  {}

  // --- steps that change nothing but their thread ---------------------------

  lemma ThreadStepKeeps(s: State, t: nat, l: Thread)
    requires Inv(s) && t < |s.threads| && ThreadOk(s, l)
    requires Locked(l.pc) ==> Locked(s.threads[t].pc) || Unlocked(s)
    ensures Inv(SetThread(s, t, l))
  {
    var s' := SetThread(s, t, l);
    assert forall u | 0 <= u < |s'.threads| :: ThreadOk(s', s'.threads[u]) by {
      assert forall u | 0 <= u < |s.threads| :: ThreadOk(s, s.threads[u]);
    }
  }

  // --- the exchange ---------------------------------------------------------

  /** The exchange found current as it was read: the block it was in is still
      the installed one, because no other block has that address. */
  lemma SwapIsHome(s: State, l: Thread)
    requires Blocks(s) && Installed(s) && ThreadOk(s, l) && l.pc.Swap? && s.current == l.current
    ensures l.home == s.home < |s.blocks| && l.end == s.end && s.current != 0
  {
    assert l.home < s.home < |s.blocks| ==> Apart(s.blocks[l.home], s.blocks[s.home]);
  }

  ghost function Taking(s: State, t: nat, start: nat): State
    requires t < |s.threads|
  {
    var l := s.threads[t];
    s.(current := start + l.bytes, taken := s.taken + [Range(start, l.bytes, l.alignment)], homes := s.homes + [s.home],
       threads := s.threads[t := l.(pc := Idle)])
  }

  ghost predicate MayTake(s: State, t: nat, start: nat) {
    && t < |s.threads| && s.home < |s.blocks| && s.current != 0
    && 0 < s.threads[t].alignment && start % s.threads[t].alignment == 0
    && s.current <= start && start + s.threads[t].bytes <= s.end
  }

  lemma TakingTaken(s: State, t: nat, start: nat)
    requires MayTake(s, t, start) && Blocks(s) && Installed(s) && Taken(s)
    ensures Taken(Taking(s, t, start)) && Installed(Taking(s, t, start))
  {
    var s' := Taking(s, t, start);
    var r := Range(start, s.threads[t].bytes, s.threads[t].alignment);
    forall i | 0 <= i < |s.taken| ensures Apart(Span(s.taken[i]), Span(r)) {
      var k := s.homes[i];
      assert Within(s.blocks, s.home, s.current, s.taken[i], k);
      if k != s.home {
        assert Apart(s.blocks[if k < s.home then k else s.home], s.blocks[if k < s.home then s.home else k]);
        ApartInside(s.blocks[k], s.blocks[s.home], Span(s.taken[i]), Span(r));
      }
    }
  }

  lemma TakingThreads(s: State, t: nat, start: nat)
    requires MayTake(s, t, start) && Threads(s) && Mutex(s)
    ensures Threads(Taking(s, t, start)) && Mutex(Taking(s, t, start))
  {
    var s' := Taking(s, t, start);
    forall u | 0 <= u < |s'.threads| ensures ThreadOk(s', s'.threads[u]) {
      assert ThreadOk(s, s.threads[u]);
    }
  }

  lemma SwapKeeps(s: State, t: nat, c: Choice)
    requires Inv(s) && t < |s.threads| && s.threads[t].pc.Swap? && s.current == s.threads[t].current && !c.Fail?
    ensures Inv(AllocateStep(s, t, c))
  {
    var l := s.threads[t];
    assert ThreadOk(s, l);
    SwapIsHome(s, l);
    FitIsExact(l.current, l.end, l.bytes, l.alignment, 0);
    var start := Fit(l.current, l.end, l.bytes, l.alignment);
    TakingTaken(s, t, start);
    TakingThreads(s, t, start);
    assert AllocateStep(s, t, c) == Taking(s, t, start);
  }

  lemma AllocateStepKeeps(s: State, t: nat, c: Choice)
    requires Inv(s) && t < |s.threads| && InAllocate(s.threads[t].pc) && s.threads[t].alignment > 0
    ensures Inv(AllocateStep(s, t, c))
  {
    var l := s.threads[t];
    assert ThreadOk(s, l);
    if l.pc.Swap? && s.current == l.current && !c.Fail? {
      SwapKeeps(s, t, c);
    } else {
      ThreadStepKeeps(s, t, AllocateStep(s, t, c).threads[t]);
      assert AllocateStep(s, t, c) == SetThread(s, t, AllocateStep(s, t, c).threads[t]);
    }
  }

  // --- blocks ---------------------------------------------------------------

  /** A block from the upstream, for the range or for a request of its own. */
  ghost function Adding(s: State, t: nat, block: Block, taken: seq<Range>, l: Thread): State
    requires t < |s.threads|
  {
    s.(blocks := s.blocks + [block], taken := s.taken + taken, homes := s.homes + seq(|taken|, _ => |s.blocks|),
       threads := s.threads[t := l])
  }

  lemma AddingBlocks(s: State, t: nat, block: Block, taken: seq<Range>, l: Thread, alignment: nat)
    requires t < |s.threads| && Blocks(s) && Installed(s) && Fresh(s.blocks, block, alignment)
    ensures Blocks(Adding(s, t, block, taken, l)) && Installed(Adding(s, t, block, taken, l))
  {}

  lemma AddingTaken(s: State, t: nat, block: Block, taken: seq<Range>, l: Thread)
    requires t < |s.threads| && Installed(s) && Taken(s) && (forall i | 0 <= i < |s.blocks| :: Apart(s.blocks[i], block))
    requires taken == [] || (|taken| == 1 && Span(taken[0]) == block && Within([block], 1, 0, taken[0], 0))
    ensures Taken(Adding(s, t, block, taken, l))
  {
    var s' := Adding(s, t, block, taken, l);
    forall i, j | 0 <= i < j < |s'.taken| ensures Apart(Span(s'.taken[i]), Span(s'.taken[j])) {
      assert Within(s.blocks, s.home, s.current, s.taken[i], s.homes[i]);
      if j == |s.taken| {
        ApartInside(s.blocks[s.homes[i]], block, Span(s'.taken[i]), Span(s'.taken[j]));
      }
    }
    forall i | 0 <= i < |s'.taken| ensures Within(s'.blocks, s'.home, s'.current, s'.taken[i], s'.homes[i]) {
      assert i < |s.taken| ==> Within(s.blocks, s.home, s.current, s.taken[i], s.homes[i]);
    }
  }

  lemma AddingThreads(s: State, t: nat, block: Block, taken: seq<Range>, l: Thread)
    requires t < |s.threads| && Installed(s) && Taken(s) && Threads(s) && Mutex(s) && Locked(s.threads[t].pc)
    requires (l.pc.Idle? && 0 < l.alignment < ADDRESSES) ||
             (l.pc.InstallNull? && taken == [] && l.block == |s.blocks| && 0 < l.alignment < ADDRESSES)
    ensures Threads(Adding(s, t, block, taken, l)) && Mutex(Adding(s, t, block, taken, l))
  {
    var s' := Adding(s, t, block, taken, l);
    assert |s.blocks| !in s.homes by {
      assert forall i | 0 <= i < |s.taken| :: Within(s.blocks, s.home, s.current, s.taken[i], s.homes[i]);
    }
    forall u | 0 <= u < |s'.threads| ensures ThreadOk(s', s'.threads[u]) {
      assert ThreadOk(s, s.threads[u]);
    }
  }

  lemma FetchKeeps(s: State, t: nat, c: Choice)
    requires Inv(s) && t < |s.threads| && s.threads[t].alignment > 0 && c.Answer?
    requires (s.threads[t].pc.FetchBlock? && Fresh(s.blocks, Block(c.start, s.blockSize), MAX_ALIGN)) ||
             (s.threads[t].pc.FetchCustom? && Fresh(s.blocks, Block(c.start, s.threads[t].bytes), s.threads[t].alignment))
    ensures Inv(BlockStep(s, t, c, false))
  {
    var l0, s' := s.threads[t], BlockStep(s, t, c, false);
    var l := s'.threads[t];
    assert ThreadOk(s, l0);
    var block := if l0.pc.FetchBlock? then Block(c.start, s.blockSize) else Block(c.start, l0.bytes);
    var taken := if l0.pc.FetchBlock? then [] else [Range(c.start, l0.bytes, l0.alignment)];
    AddingBlocks(s, t, block, taken, l, if l0.pc.FetchBlock? then MAX_ALIGN else l0.alignment);
    AddingTaken(s, t, block, taken, l);
    AddingThreads(s, t, block, taken, l);
    assert s' == Adding(s, t, block, taken, l);
  }

  /** It got no block: the thread goes on, and nothing else changes. */
  lemma BlockStepQuiet(s: State, t: nat, c: Choice)
    requires Shape(s) && t < |s.threads| && ThreadOk(s, s.threads[t]) && s.threads[t].alignment > 0 && !s.threads[t].pc.Idle?
    requires !InAllocate(s.threads[t].pc) && !InInstall(s.threads[t].pc)
    requires var l := s.threads[t];
      !(c.Answer? && ((l.pc.FetchBlock? && Fresh(s.blocks, Block(c.start, s.blockSize), MAX_ALIGN)) ||
                      (l.pc.FetchCustom? && Fresh(s.blocks, Block(c.start, l.bytes), l.alignment))))
    ensures var s' := BlockStep(s, t, c, Unlocked(s));
      |s'.threads| == |s.threads| && s' == SetThread(s, t, s'.threads[t])
  {}

  lemma BlockStepKeeps(s: State, t: nat, c: Choice)
    requires Inv(s) && t < |s.threads| && s.threads[t].alignment > 0 && !s.threads[t].pc.Idle?
    requires !InAllocate(s.threads[t].pc) && !InInstall(s.threads[t].pc)
    ensures Inv(BlockStep(s, t, c, Unlocked(s)))
  {
    var l := s.threads[t];
    var s' := BlockStep(s, t, c, Unlocked(s));
    assert ThreadOk(s, l);
    if c.Answer? && ((l.pc.FetchBlock? && Fresh(s.blocks, Block(c.start, s.blockSize), MAX_ALIGN)) ||
                     (l.pc.FetchCustom? && Fresh(s.blocks, Block(c.start, l.bytes), l.alignment)))
    {
      FetchKeeps(s, t, c);
    } else {
      BlockStepQuiet(s, t, c);
      ThreadStepKeeps(s, t, s'.threads[t]);
    }
  }

  // --- installRange ---------------------------------------------------------

  lemma InstallNullKeeps(s: State, t: nat)
    requires Inv(s) && t < |s.threads| && s.threads[t].pc.InstallNull? && s.threads[t].block < |s.blocks|
    ensures Inv(InstallStep(s, t))
  {
    var s' := InstallStep(s, t);
    assert ThreadOk(s, s.threads[t]);
    forall i | 0 <= i < |s'.taken| ensures Within(s'.blocks, s'.home, s'.current, s'.taken[i], s'.homes[i]) {
      assert Within(s.blocks, s.home, s.current, s.taken[i], s.homes[i]);
    }
    forall u | 0 <= u < |s'.threads| ensures ThreadOk(s', s'.threads[u]) {
      assert ThreadOk(s, s.threads[u]);
    }
  }

  lemma InstallEndKeeps(s: State, t: nat)
    requires Inv(s) && t < |s.threads| && s.threads[t].pc.InstallEnd? && s.threads[t].block < |s.blocks|
    ensures Inv(InstallStep(s, t))
  {
    var s' := InstallStep(s, t);
    assert ThreadOk(s, s.threads[t]);
    forall u | 0 <= u < |s'.threads| ensures ThreadOk(s', s'.threads[u]) {
      assert ThreadOk(s, s.threads[u]);
    }
  }

  lemma InstallStartKeeps(s: State, t: nat)
    requires Inv(s) && t < |s.threads| && s.threads[t].pc.InstallStart? && s.threads[t].block < |s.blocks|
    ensures Inv(InstallStep(s, t))
  {
    var s' := InstallStep(s, t);
    assert ThreadOk(s, s.threads[t]);
    forall i | 0 <= i < |s'.taken| ensures Within(s'.blocks, s'.home, s'.current, s'.taken[i], s'.homes[i]) {
      assert Within(s.blocks, s.home, s.current, s.taken[i], s.homes[i]) && s.homes[i] in s.homes;
    }
    forall u | 0 <= u < |s'.threads| ensures ThreadOk(s', s'.threads[u]) {
      assert ThreadOk(s, s.threads[u]);
    }
  }

  // --- every step, and every run --------------------------------------------

  lemma RestartKeeps(s: State, release: bool)
    requires Inv(s) && AllIdle(s)
    ensures Inv(Restart(s, release))
  {
    var s' := Restart(s, release);
    forall u | 0 <= u < |s'.threads| ensures ThreadOk(s', s'.threads[u]) {
      assert ThreadOk(s, s.threads[u]);
    }
  }

  lemma IdleStepKeeps(s: State, t: nat, c: Choice)
    requires Inv(s) && Shape(s) && t < |s.threads| && s.threads[t].pc.Idle?
    ensures Inv(Step(s, t, c))
  {
    if c.Allocate? && IsAlignment(c.alignment) && c.bytes < ADDRESSES {
      ThreadStepKeeps(s, t, s.threads[t].(pc := LoadCurrent, bytes := c.bytes, alignment := c.alignment));
    } else if (c.Reset? || c.Release?) && AllIdle(s) {
      RestartKeeps(s, c.Release?);
    }
  }

  /** Every step of every thread keeps the invariant. */
  lemma StepKeeps(s: State, t: nat, c: Choice)
    requires Inv(s) && Shape(s) && t < |s.threads|
    ensures Inv(Step(s, t, c))
  {
    var pc := s.threads[t].pc;
    if pc.Idle? {
      IdleStepKeeps(s, t, c);
    } else if InAllocate(pc) {
      AllocateStepKeeps(s, t, c);
    } else if pc.InstallNull? {
      InstallNullKeeps(s, t);
    } else if pc.InstallEnd? {
      InstallEndKeeps(s, t);
    } else if pc.InstallStart? {
      InstallStartKeeps(s, t);
    } else {
      BlockStepKeeps(s, t, c);
    }
  }

  datatype Turn = Turn(thread: nat, choice: Choice)

  /** Before the first allocation: with the buffer of the caller or the first
      block of the upstream, or right after release. */
  predicate Initial(s: State) {
    && s.blockSize > 0
    && (s.buffer.Some? ==> s.buffer.value.Valid())
    && (|s.blocks| == 1 && s.blocks[0].Valid() && (s.buffer.Some? ==> s.blocks[0] == s.buffer.value))
    && s.taken == [] && s.homes == []
    && (if s.blocks[0].size == 0 then s.home == 1 && s.current == 0 && s.end == 0
        else s.home == 0 && s.current == s.blocks[0].start && s.end == s.blocks[0].Last())
    && (forall t | 0 <= t < |s.threads| :: s.threads[t].pc.Idle? && s.threads[t].alignment == MAX_ALIGN)
  }

  /** The state after the turns, in any interleaving; a turn of no thread does nothing. */
  ghost function Run(s: State, turns: seq<Turn>): State {
    if turns == [] then s
    else
      var before := Run(s, turns[..|turns| - 1]);
      var last := turns[|turns| - 1];
      if Shape(before) && last.thread < |before.threads| then Step(before, last.thread, last.choice) else before
  }

  lemma {:induction false} RunInv(s: State, turns: seq<Turn>)
    requires Initial(s)
    ensures Inv(Run(s, turns))
  {
    if turns != [] {
      RunInv(s, turns[..|turns| - 1]);
      var before := Run(s, turns[..|turns| - 1]);
      var last := turns[|turns| - 1];
      if Shape(before) && last.thread < |before.threads| {
        StepKeeps(before, last.thread, last.choice);
      }
    }
  }

  /** In every interleaving: what was returned since the last reset is aligned
      as asked for, inside one block that is still there, and apart from
      everything else that was returned, also where blocks touch. */
  lemma RangesAreApart(s: State, turns: seq<Turn>, i: nat, j: nat)
    requires Initial(s) && i < |Run(s, turns).taken| && j < |Run(s, turns).taken|
    ensures var r := Run(s, turns); var a := r.taken[i];
      && a.alignment > 0 && a.start % a.alignment == 0
      && (exists k :: 0 <= k < |r.blocks| && r.blocks[k].start <= a.start &&
                      a.start + a.bytes <= r.blocks[k].start + r.blocks[k].size)
      && (i != j ==> Apart(Span(a), Span(r.taken[j])))
  {
    RunInv(s, turns);
    var r := Run(s, turns);
    assert Within(r.blocks, r.home, r.current, r.taken[i], r.homes[i]);
    assert Apart(Span(r.taken[if i < j then i else j]), Span(r.taken[if i < j then j else i])) || i == j;
  }

  /** A successful exchange gives a range of the installed block: up to its
      last byte, which nobody gets. */
  lemma ExchangeStaysInBlock(s: State, turns: seq<Turn>, t: nat)
    requires Initial(s) && t < |Run(s, turns).threads|
    requires var r := Run(s, turns); r.threads[t].pc.Swap? && r.threads[t].current == r.current && r.threads[t].alignment > 0
    ensures var r := Run(s, turns); var l := r.threads[t];
      var start := Fit(l.current, l.end, l.bytes, l.alignment);
      && r.home < |r.blocks| && r.current <= start
      && r.blocks[r.home].start <= start && start + l.bytes <= r.blocks[r.home].Last()
  {
    RunInv(s, turns);
    var r := Run(s, turns);
    var l := r.threads[t];
    assert ThreadOk(r, l);
    SwapIsHome(r, l);
    FitIsExact(l.current, l.end, l.bytes, l.alignment, 0);
  }
}
