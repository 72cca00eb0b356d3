/**
 The bump allocator under any number of threads (monotonic_resource.hpp and
 .cpp): allocate, the install of a range under the mutex, blocks of their own
 for large requests, and reset and release between them. One step of a thread
 per access to m_current or m_end; blocks never move between resets.
 */
module Monotonic {
  import opened Options
  import opened MonotonicFit

  datatype Pc =
    | Idle | LoadCurrent | LoadEnd | Swap
    | LockFull | Recheck | FetchBlock | InstallNull | InstallEnd | InstallStart
    | LockCustom | FetchCustom

  /** current, end: what the thread read; home: the block current was in then;
      block: the one it fetched. */
  datatype Thread = Thread(pc: Pc, bytes: nat, alignment: nat, current: nat, end: nat, home: nat, block: nat)

  /** blocks: the caller's buffer and the blocks of the upstream, in the order
      they came; home: the one whose range is installed, or the number of
      blocks if none was; taken: what was returned since the last reset, and
      homes: in which block each of that is. */
  datatype State = State(
    blockSize: nat, buffer: Option<Block>, current: nat, end: nat, blocks: seq<Block>, home: nat,
    taken: seq<Range>, homes: seq<nat>, threads: seq<Thread>)

  /** Fail: a weak exchange fails, or the upstream has no memory. Answer: where
      the upstream puts the block. */
  datatype Choice = Go | Fail | Allocate(bytes: nat, alignment: nat) | Answer(start: nat) | Reset | Release

  /** Holds the mutex. */
  predicate Locked(pc: Pc) {
    pc.Recheck? || pc.FetchBlock? || pc.InstallNull? || pc.InstallEnd? || pc.InstallStart? || pc.FetchCustom?
  }

  /** What an upstream may answer: memory of nobody, aligned as asked for. */
  predicate Fresh(blocks: seq<Block>, block: Block, alignment: nat) {
    && block.Valid() && alignment > 0 && block.start % alignment == 0
    && (forall i | 0 <= i < |blocks| :: Apart(blocks[i], block))
  }

  function SetThread(s: State, t: nat, l: Thread): State
    requires t < |s.threads|
  {
    s.(threads := s.threads[t := l])
  }

  /** allocate up to the mutex. */
  function AllocateStep(s: State, t: nat, c: Choice): State
    requires t < |s.threads| && s.threads[t].alignment > 0
  {
    var l := s.threads[t];
    match l.pc
    case LoadCurrent => SetThread(s, t, l.(pc := LoadEnd, current := s.current, home := s.home))
    case LoadEnd =>
      var full := if FitsNewBlock(s.blockSize, l.bytes, l.alignment) then LockFull else LockCustom;
      SetThread(s, t, l.(pc := if Fit(l.current, s.end, l.bytes, l.alignment) != 0 then Swap else full, end := s.end))
    case Swap =>
      var start := Fit(l.current, l.end, l.bytes, l.alignment);
      if s.current != l.current || c.Fail? then SetThread(s, t, l.(pc := LoadCurrent))
      else
        SetThread(s.(current := start + l.bytes, taken := s.taken + [Range(start, l.bytes, l.alignment)],
                     homes := s.homes + [s.home]), t, l.(pc := Idle))
    case _ => s
  }

  /** handleFullBlock and allocateCustomBlock. The end does not change under
      the mutex, so the look at both words in Recheck is one step. */
  function BlockStep(s: State, t: nat, c: Choice, open: bool): State
    requires t < |s.threads| && s.threads[t].alignment > 0
  {
    var l := s.threads[t];
    match l.pc
    case LockFull => SetThread(s, t, if open then l.(pc := Recheck) else l)
    case Recheck =>
      SetThread(s, t, l.(pc := if Fit(s.current, s.end, l.bytes, l.alignment) != 0 then LoadCurrent else FetchBlock))
    case FetchBlock =>
      if c.Answer? && Fresh(s.blocks, Block(c.start, s.blockSize), MAX_ALIGN)
      then SetThread(s.(blocks := s.blocks + [Block(c.start, s.blockSize)]), t, l.(pc := InstallNull, block := |s.blocks|))
      else if c.Fail? then SetThread(s, t, l.(pc := Idle))
      else s
    case LockCustom => SetThread(s, t, if open then l.(pc := FetchCustom) else l)
    case FetchCustom =>
      if c.Answer? && Fresh(s.blocks, Block(c.start, l.bytes), l.alignment)
      then SetThread(s.(blocks := s.blocks + [Block(c.start, l.bytes)],
                        taken := s.taken + [Range(c.start, l.bytes, l.alignment)], homes := s.homes + [|s.blocks|]), t,
                     l.(pc := Idle))
      else if c.Fail? then SetThread(s, t, l.(pc := Idle))
      else s
    case _ => s
  }

  /** installRange of the block the thread fetched. */
  function InstallStep(s: State, t: nat): State
    requires t < |s.threads| && s.threads[t].block < |s.blocks|
  {
    var l := s.threads[t];
    var block := s.blocks[l.block];
    match l.pc
    case InstallNull => SetThread(s.(current := 0, home := l.block), t, l.(pc := InstallEnd))
    case InstallEnd => SetThread(s.(end := if block.size == 0 then 0 else block.start + block.size - 1), t, l.(pc := InstallStart))
    case InstallStart => SetThread(s.(current := if block.size == 0 then 0 else block.start), t, l.(pc := LoadCurrent))
    case _ => s
  }

  /** The blocks that reset keeps: the buffer, or without one the first block. */
  function Kept(s: State, release: bool): seq<Block> {
    if s.buffer.Some? then [s.buffer.value] else if release || s.blocks == [] then [] else s.blocks[..1]
  }

  /** reset and release, which run next to nothing else; everything returned
      until then is over. */
  function Restart(s: State, release: bool): State {
    var kept := Kept(s, release);
    if kept == [] || kept[0].size == 0
    then s.(blocks := kept, home := |kept|, current := 0, end := 0, taken := [], homes := [])
    else s.(blocks := kept, home := 0, current := kept[0].start, end := kept[0].start + kept[0].size - 1, taken := [], homes := [])
  }

  predicate InAllocate(pc: Pc) { pc.LoadCurrent? || pc.LoadEnd? || pc.Swap? }
  predicate InInstall(pc: Pc) { pc.InstallNull? || pc.InstallEnd? || pc.InstallStart? }

  ghost predicate Shape(s: State) {
    && s.blockSize > 0
    && (forall t | 0 <= t < |s.threads| ::
          var l := s.threads[t];
          0 < l.alignment < ADDRESSES && (InInstall(l.pc) ==> l.block < |s.blocks|))
  }

  predicate AllIdle(s: State) { forall t | 0 <= t < |s.threads| :: s.threads[t].pc.Idle? }
  predicate Unlocked(s: State) { forall t | 0 <= t < |s.threads| :: !Locked(s.threads[t].pc) }

  /** One step of thread t. */
  ghost function Step(s: State, t: nat, c: Choice): State
    requires Shape(s) && t < |s.threads|
  {
    var l := s.threads[t];
    if l.pc.Idle? then
      if c.Allocate? && IsAlignment(c.alignment) && c.bytes < ADDRESSES
      then SetThread(s, t, l.(pc := LoadCurrent, bytes := c.bytes, alignment := c.alignment))
      else if (c.Reset? || c.Release?) && AllIdle(s) then Restart(s, c.Release?)
      else s
    else if InAllocate(l.pc) then AllocateStep(s, t, c)
    else if InInstall(l.pc) then InstallStep(s, t)
    else BlockStep(s, t, c, Unlocked(s))
  }

  // --- the invariant --------------------------------------------------------

  predicate Blocks(s: State) {
    && (forall i | 0 <= i < |s.blocks| :: s.blocks[i].Valid())
    && (forall i, j | 0 <= i < j < |s.blocks| :: Apart(s.blocks[i], s.blocks[j]))
    && (s.buffer.Some? ==> |s.blocks| > 0 && s.blocks[0] == s.buffer.value)
  }

  /** current never reaches the last byte's successor: it belongs to home alone. */
  predicate Installed(s: State) {
    && s.home <= |s.blocks|
    && (s.current != 0 ==>
          && s.home < |s.blocks| && s.end == s.blocks[s.home].Last()
          && s.blocks[s.home].start <= s.current <= s.end)
  }

  /** r was given out of block k: of the part that is used of an installed one. */
  predicate Within(blocks: seq<Block>, home: nat, current: nat, r: Range, k: nat) {
    && k < |blocks| && r.alignment > 0 && r.start % r.alignment == 0
    && blocks[k].start <= r.start && r.start + r.bytes <= blocks[k].start + blocks[k].size
    && (k == home && current != 0 ==> r.start + r.bytes <= current)
  }

  predicate Taken(s: State) {
    && |s.homes| == |s.taken|
    && (forall i | 0 <= i < |s.taken| :: Within(s.blocks, s.home, s.current, s.taken[i], s.homes[i]))
    && (forall i, j | 0 <= i < j < |s.taken| :: Apart(Span(s.taken[i]), Span(s.taken[j])))
  }

  /** What the exchange relies on: while home is the block that current was in,
      the end that was read is the end of that block. */
  predicate ThreadOk(s: State, l: Thread) {
    && 0 < l.alignment < ADDRESSES
    && (l.pc.LoadEnd? || l.pc.Swap? ==>
          && l.home <= s.home
          && (l.current != 0 ==>
                && l.home < |s.blocks| && s.blocks[l.home].start <= l.current <= s.blocks[l.home].Last()
                && (l.home == s.home ==> s.current != 0)))
    && (l.pc.Swap? ==>
          && Fit(l.current, l.end, l.bytes, l.alignment) != 0
          && (l.home == s.home ==> l.end == s.blocks[l.home].Last()))
    && (InInstall(l.pc) ==> l.block < |s.blocks| && s.home <= l.block && l.block !in s.homes)
    && (l.pc.InstallNull? && s.home == l.block ==> s.current == 0)
    && (l.pc.InstallEnd? || l.pc.InstallStart? ==> s.home == l.block && s.current == 0)
    && (l.pc.InstallStart? && s.blocks[l.block].size > 0 ==> s.end == s.blocks[l.block].Last())
  }

  ghost predicate Threads(s: State) { forall t | 0 <= t < |s.threads| :: ThreadOk(s, s.threads[t]) }

  /** One thread has the mutex. */
  ghost predicate Mutex(s: State) {
    forall t, u | 0 <= t < |s.threads| && 0 <= u < |s.threads| && t != u && Locked(s.threads[t].pc) :: !Locked(s.threads[u].pc)
  }

  ghost predicate Inv(s: State) {
    s.blockSize > 0 && Blocks(s) && Installed(s) && Taken(s) && Threads(s) && Mutex(s)
  }
}
