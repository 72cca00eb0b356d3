/**
 What every step of every thread keeps for the pages of a column, and what
 follows for every run: memory is never given back under a user, values are
 constructed and ended once per round, the count is exact, the spares are the
 emptied pages, and the summary covers the mask whenever nothing is under way.
 */
module ColumnInvariant {
  import opened Counting
  import opened ColumnPage
  import opened PageSizes
  import opened ColumnEffects

  // --- the invariant --------------------------------------------------------

  ghost predicate Threads(s: State) {
    forall t | 0 <= t < |s.threads| ::
      && s.threads[t].page < |s.pages| && LocalOk(s.config, s.threads[t])
      && (s.threads[t].bit.Held? ==> s.threads[t].bit.page < |s.pages|)
  }

  /** A making bit is set exactly while one thread holds it. */
  ghost predicate Bits(s: State) {
    && (forall t | 0 <= t < |s.threads| && s.threads[t].bit.Held? ::
          s.threads[t].bit.page < |s.pages| && s.threads[t].bit.slot in s.pages[s.threads[t].bit.page].making)
    && (forall t, u | 0 <= t < |s.threads| && 0 <= u < |s.threads| && t != u && s.threads[t].bit.Held? ::
          s.threads[t].bit != s.threads[u].bit)
    && (forall p, slot | 0 <= p < |s.pages| && slot in s.pages[p].making ::
          exists t :: 0 <= t < |s.threads| && s.threads[t].bit == Held(p, slot))
  }

  /** One thread at a time has busy of a page, and started is the memory there
      is, except for what that thread is at. */
  ghost predicate Busies(s: State) {
    && (forall p | 0 <= p < |s.pages| :: StartedOk(s.pages[p], Idle))
    && (forall t | 0 <= t < |s.threads| ::
          s.threads[t].page < |s.pages| && StartedOk(s.pages[s.threads[t].page], s.threads[t].pc))
    && (forall t, u | 0 <= t < |s.threads| && 0 <= u < |s.threads| && t != u &&
                      InBusy(s.threads[t].pc) && InBusy(s.threads[u].pc) ::
          s.threads[t].page != s.threads[u].page)
  }

  /** Whoever waits for busy waits for a thread that has it. */
  ghost predicate Locks(s: State) {
    forall p | 0 <= p < |s.pages| && s.pages[p].busy ::
      exists t :: 0 <= t < |s.threads| && s.threads[t].page == p && InBusy(s.threads[t].pc)
  }

  function CountWeight(p: nat): Thread -> nat {
    (l: Thread) => if l.page == p && Counted(l.pc) then 1 else 0
  }

  /** The count of a page: its components, and the threads between counting
      one in and its bit, or between its bit and counting it out. */
  ghost predicate Counts(s: State) {
    forall p | 0 <= p < |s.pages| ::
      s.pages[p].count == |s.pages[p].mask| + Sum(CountWeight(p), s.threads)
  }

  /** A vacate that found the count at zero: nobody is or gets in. */
  ghost predicate Cleared(s: State) {
    forall t | 0 <= t < |s.threads| && Clearing(s.threads[t].pc) ::
      && s.threads[t].page < |s.pages| && s.pages[s.threads[t].page].mask == {}
      && (forall u | 0 <= u < |s.threads| && s.threads[u].page == s.threads[t].page ::
            && !Inside(s.threads[u].pc)
            && (s.threads[u].pc.Using? ==> s.threads[u].slot / WORD_BITS >= s.threads[t].word))
  }

  /** Where a value is or is being made, used or ended, there is memory. */
  ghost predicate Backed(s: State) {
    && (forall p | 0 <= p < |s.pages| && s.pages[p].mask != {} :: s.pages[p].memory)
    && (forall t | 0 <= t < |s.threads| && (Inside(s.threads[t].pc) || s.threads[t].pc.Using?) ::
          s.threads[t].page < |s.pages| && s.pages[s.threads[t].page].memory)
  }

  predicate LiveOk(config: Config, pg: Page, l: Thread) {
    && (Adding(l.pc) ==> l.slot !in pg.live)
    && (Between(l.pc) ==> l.slot in pg.live && l.slot !in pg.mask)
    && (l.pc.Using? && config.eraseTakesBit ==> l.slot in pg.mask)
  }

  ghost predicate LiveThreads(s: State) {
    forall t | 0 <= t < |s.threads| ::
      s.threads[t].page < |s.pages| && LiveOk(s.config, s.pages[s.threads[t].page], s.threads[t])
  }

  /** Which values are constructed: those of the mask, and those a thread has
      between the construction and the mask or between the mask and the end. */
  ghost predicate Lives(s: State) {
    && (forall p | 0 <= p < |s.pages| :: s.pages[p].mask <= s.pages[p].live)
    && (forall p, slot | 0 <= p < |s.pages| && slot in s.pages[p].mask :: slot < PAGE_SIZE)
    && (forall p, slot | 0 <= p < |s.pages| && slot in s.pages[p].live && slot !in s.pages[p].mask ::
          exists t :: 0 <= t < |s.threads| && IsBetween(s.threads[t], p, slot))
  }

  predicate IsBetween(l: Thread, p: nat, slot: nat) { l.page == p && l.slot == slot && Between(l.pc) }

  /** Every word with a bit is in the summary, or a thread is about to put it there. */
  ghost predicate Summaries(s: State) {
    forall p, slot | 0 <= p < |s.pages| && slot in s.pages[p].mask && slot / WORD_BITS !in s.pages[p].summary ::
      exists t :: 0 <= t < |s.threads| && s.threads[t].page == p && Marks(s.threads[t], slot / WORD_BITS)
  }

  function CarryWeight(p: nat): Thread -> nat {
    (l: Thread) => if l.page == p && Carries(l.pc) then 1 else 0
  }

  function PlaceWeight(p: nat): int -> nat {
    (place: int) => if place == p then 1 else 0
  }

  /** parked: the page is at one place of the spares, or one thread has it in
      hand on the way in or out; otherwise neither. */
  ghost predicate Parks(s: State) {
    forall p | 0 <= p < |s.pages| ::
      Sum(PlaceWeight(p), s.spares) + Sum(CarryWeight(p), s.threads) == Bool(s.pages[p].parked)
  }

  /** Memory without components is a spare, was kept for a making bit, or has
      a thread that will park it or give it back. */
  ghost predicate Retired(s: State) {
    forall p | 0 <= p < |s.pages| && Leftover(s.pages[p]) ::
      exists t :: 0 <= t < |s.threads| && s.threads[t].page == p && Retires(s.threads[t].pc)
  }

  /** Whether the last event of the slot is a make. */
  predicate Has(log: seq<Event>, p: nat, slot: nat) {
    log != [] &&
    (var last := log[|log| - 1];
     if last.page == p && last.slot == slot then last.Made? else Has(log[..|log| - 1], p, slot))
  }

  /** Makes and erases of every slot alternate, a make first. */
  predicate Alternates(log: seq<Event>) {
    log == [] ||
    (var last := log[|log| - 1];
     Alternates(log[..|log| - 1]) && Has(log[..|log| - 1], last.page, last.slot) == last.Erased?)
  }

  ghost predicate Logged(s: State) {
    && Alternates(s.log)
    && (forall p, slot | 0 <= p < |s.pages| :: (slot in s.pages[p].mask) == Has(s.log, p, slot))
  }

  /** The place park took is one of the spares. */
  ghost predicate Places(s: State) {
    forall t | 0 <= t < |s.threads| && s.threads[t].pc.SwapPlace? :: s.threads[t].place < |s.spares|
  }

  ghost predicate Inv(s: State) {
    && Shape(s) && Places(s) && Threads(s) && Bits(s) && Busies(s) && Locks(s) && Counts(s) && Cleared(s) && Backed(s)
    && LiveThreads(s) && Lives(s) && Summaries(s) && Parks(s) && Retired(s) && Logged(s)
  }

  // --- every step keeps it --------------------------------------------------

  /** One step changes the header of the page its thread was at, and the thread. */
  ghost predicate Stepped(s: State, t: nat, pg: Page, l: Thread, s': State) {
    && t < |s.threads| && s.threads[t].page < |s.pages|
    && s'.config == s.config
    && s'.pages == s.pages[s.threads[t].page := pg]
    && s'.threads == s.threads[t := l]
    && l.page < |s.pages|
  }

  lemma KeepsBits(s: State, t: nat, pg: Page, l: Thread, s': State)
    requires Stepped(s, t, pg, l, s') && Threads(s) && Bits(s) && LocalOk(s.config, l)
    requires BitsEffect(s.pages[s.threads[t].page], s.threads[t], pg, l)
    ensures Bits(s') && Threads(s')
  {
    forall p, slot | 0 <= p < |s'.pages| && slot in s'.pages[p].making
      ensures exists u :: 0 <= u < |s'.threads| && s'.threads[u].bit == Held(p, slot)
    {
      if slot in s.pages[p].making {
        var u :| 0 <= u < |s.threads| && s.threads[u].bit == Held(p, slot);
        assert s'.threads[u].bit == Held(p, slot);
      } else {
        assert s'.threads[t].bit == Held(p, slot);
      }
    }
  }

  lemma KeepsBusies(s: State, t: nat, pg: Page, l: Thread, s': State)
    requires Stepped(s, t, pg, l, s') && Busies(s)
    requires BusyEffect(s.pages[s.threads[t].page], s.threads[t], pg, l)
    ensures Busies(s')
  {}

  lemma KeepsLocks(s: State, t: nat, pg: Page, l: Thread, s': State)
    requires Stepped(s, t, pg, l, s') && Locks(s)
    requires LockEffect(s.pages[s.threads[t].page], s.threads[t], pg, l)
    ensures Locks(s')
  {
    forall p | 0 <= p < |s'.pages| && s'.pages[p].busy
      ensures exists u :: 0 <= u < |s'.threads| && s'.threads[u].page == p && InBusy(s'.threads[u].pc)
    {
      if s.pages[p].busy && (p == s.threads[t].page ==> !InBusy(s.threads[t].pc)) {
        var u :| 0 <= u < |s.threads| && s.threads[u].page == p && InBusy(s.threads[u].pc);
        assert s'.threads[u].page == p && InBusy(s'.threads[u].pc);
      } else {
        assert s'.threads[t].page == p && InBusy(s'.threads[t].pc);
      }
    }
  }

  lemma CardinalityBy(mask: set<nat>, slot: nat)
    ensures slot !in mask ==> |mask + {slot}| == |mask| + 1
    ensures slot in mask ==> |mask - {slot}| == |mask| - 1
  {}

  lemma KeepsCounts(s: State, t: nat, pg: Page, l: Thread, s': State)
    requires Stepped(s, t, pg, l, s') && Counts(s)
    requires var pg0, l0 := s.pages[s.threads[t].page], s.threads[t];
             MaskEffect(pg0, l0, pg, l) && CountEffect(pg0, l0, pg, l) && (l0.pc.SetMask? ==> l0.slot !in pg0.mask)
    ensures Counts(s')
  {
    forall p | 0 <= p < |s'.pages|
      ensures s'.pages[p].count == |s'.pages[p].mask| + Sum(CountWeight(p), s'.threads)
    {
      SumUpdate(CountWeight(p), s.threads, t, l);
      if p == s.threads[t].page {
        CardinalityBy(s.pages[p].mask, s.threads[t].slot);
      }
    }
  }

  /** A vacate that finds the count at zero finds nobody inside. */
  lemma NobodyInside(s: State, t: nat)
    requires t < |s.threads| && s.threads[t].page < |s.pages| && Counts(s) && s.pages[s.threads[t].page].count == 0
    ensures s.pages[s.threads[t].page].mask == {}
    ensures forall u | 0 <= u < |s.threads| && s.threads[u].page == s.threads[t].page :: !Inside(s.threads[u].pc)
  {
    var p := s.threads[t].page;
    forall u | 0 <= u < |s.threads| && s.threads[u].page == p ensures !Inside(s.threads[u].pc) {
      SumAtLeast(CountWeight(p), s.threads, u);
    }
  }

  lemma KeepsCleared(s: State, t: nat, pg: Page, l: Thread, s': State)
    requires Stepped(s, t, pg, l, s') && Threads(s) && Bits(s) && Busies(s) && Cleared(s)
    requires s.pages[s.threads[t].page].count == 0 ==>
               && s.pages[s.threads[t].page].mask == {}
               && (forall u | 0 <= u < |s.threads| && s.threads[u].page == s.threads[t].page :: !Inside(s.threads[u].pc))
    requires var pg0, l0 := s.pages[s.threads[t].page], s.threads[t];
             && MaskEffect(pg0, l0, pg, l) && InsideEffect(pg0, l0, pg, l) && BusyEffect(pg0, l0, pg, l)
             && LiveEffect(pg0, l0, pg, l)
    ensures Cleared(s')
  {
    var p, l0 := s.threads[t].page, s.threads[t];
    if l.word == l0.word + 1 && Clearing(l0.pc) && Clearing(l.pc) {
      forall u | 0 <= u < |s.threads| && s.threads[u].page == p && s.threads[u].pc.Using?
        ensures s.threads[u].slot / WORD_BITS >= l0.word
        ensures s.threads[u].slot in s.pages[p].making
      {
        assert s.threads[u].bit == Held(p, s.threads[u].slot);
      }
    }
  }

  lemma KeepsBacked(s: State, t: nat, pg: Page, l: Thread, s': State)
    requires Stepped(s, t, pg, l, s') && Busies(s) && Cleared(s) && Backed(s)
    requires var pg0, l0 := s.pages[s.threads[t].page], s.threads[t];
             && MaskEffect(pg0, l0, pg, l) && InsideEffect(pg0, l0, pg, l) && BusyEffect(pg0, l0, pg, l)
             && LiveEffect(pg0, l0, pg, l) && (l0.pc.GiveBack? ==> l0.word >= PAGE_WORDS)
    requires Threads(s)
    ensures Backed(s')
  {}

  lemma KeepsLiveThreads(s: State, t: nat, pg: Page, l: Thread, s': State)
    requires Stepped(s, t, pg, l, s') && Threads(s) && Bits(s) && LiveThreads(s) && Lives(s) && LocalOk(s.config, l)
    requires var pg0, l0 := s.pages[s.threads[t].page], s.threads[t];
             MaskEffect(pg0, l0, pg, l) && LiveEffect(pg0, l0, pg, l)
    ensures LiveThreads(s')
  {
    forall u | 0 <= u < |s'.threads| ensures LiveOk(s'.config, s'.pages[s'.threads[u].page], s'.threads[u]) {
      if u != t {
        OtherLive(s, t, pg, l, u);
      } else {
        OwnLive(s, t, pg, l);
      }
    }
  }

  /** What another thread relies on for its slot does not change under it: it
      holds the making bit, and the step is not at its slot. */
  lemma OtherLive(s: State, t: nat, pg: Page, l: Thread, u: nat)
    requires t < |s.threads| && u < |s.threads| && u != t && Threads(s) && Bits(s) && LiveThreads(s)
    requires MaskEffect(s.pages[s.threads[t].page], s.threads[t], pg, l)
    ensures s.threads[u].page == s.threads[t].page ==> LiveOk(s.config, pg, s.threads[u])
  {}

  lemma OwnLive(s: State, t: nat, pg: Page, l: Thread)
    requires t < |s.threads| && Threads(s) && Bits(s) && LiveThreads(s) && Lives(s) && LocalOk(s.config, l)
    requires l.page < |s.pages|
    requires var pg0, l0 := s.pages[s.threads[t].page], s.threads[t];
             MaskEffect(pg0, l0, pg, l) && LiveEffect(pg0, l0, pg, l)
    ensures LiveOk(s.config, if l.page == s.threads[t].page then pg else s.pages[l.page], l)
  {}

  lemma KeepsLives(s: State, t: nat, pg: Page, l: Thread, s': State)
    requires Stepped(s, t, pg, l, s') && Threads(s) && Lives(s)
    requires var pg0, l0 := s.pages[s.threads[t].page], s.threads[t];
             && MaskEffect(pg0, l0, pg, l) && LiveEffect(pg0, l0, pg, l)
             && LiveOk(s.config, pg0, l0)
    ensures Lives(s')
  {
    var l0 := s.threads[t];
    forall p, slot | 0 <= p < |s'.pages| && slot in s'.pages[p].live && slot !in s'.pages[p].mask
      ensures exists u :: 0 <= u < |s'.threads| && IsBetween(s'.threads[u], p, slot)
    {
      if slot in s.pages[p].live && slot !in s.pages[p].mask {
        var u :| 0 <= u < |s.threads| && IsBetween(s.threads[u], p, slot);
        assert IsBetween(s'.threads[u], p, slot);
      } else {
        assert p == l0.page && slot == l0.slot;
        assert IsBetween(s'.threads[t], p, slot);
      }
    }
  }

  lemma KeepsSummaries(s: State, t: nat, pg: Page, l: Thread, s': State)
    requires Stepped(s, t, pg, l, s') && Threads(s) && Counts(s) && Lives(s) && Summaries(s)
    requires var pg0, l0 := s.pages[s.threads[t].page], s.threads[t];
             MaskEffect(pg0, l0, pg, l) && SummaryEffect(pg0, l0, pg, l)
    ensures Summaries(s')
  {
    forall p, slot | 0 <= p < |s'.pages| && slot in s'.pages[p].mask && slot / WORD_BITS !in s'.pages[p].summary
      ensures exists u :: 0 <= u < |s'.threads| && s'.threads[u].page == p && Marks(s'.threads[u], slot / WORD_BITS)
    {
      if slot in s.pages[p].mask && slot / WORD_BITS !in s.pages[p].summary {
        var u :| 0 <= u < |s.threads| && s.threads[u].page == p && Marks(s.threads[u], slot / WORD_BITS);
        assert s'.threads[u].page == p && Marks(s'.threads[u], slot / WORD_BITS);
      } else {
        assert s'.threads[t].page == p && Marks(s'.threads[t], slot / WORD_BITS);
      }
    }
  }

  lemma KeepsRetired(s: State, t: nat, pg: Page, l: Thread, s': State)
    requires Stepped(s, t, pg, l, s') && Retired(s)
    requires RetireEffect(s.pages[s.threads[t].page], s.threads[t], pg, l)
    ensures Retired(s')
  {
    forall p | 0 <= p < |s'.pages| && Leftover(s'.pages[p])
      ensures exists u :: 0 <= u < |s'.threads| && s'.threads[u].page == p && Retires(s'.threads[u].pc)
    {
      if Leftover(s.pages[p]) && (p == s.threads[t].page ==> !Retires(s.threads[t].pc)) {
        var u :| 0 <= u < |s.threads| && s.threads[u].page == p && Retires(s.threads[u].pc);
        assert s'.threads[u].page == p && Retires(s'.threads[u].pc);
      } else {
        assert s'.threads[t].page == p && Retires(s'.threads[t].pc);
      }
    }
  }

  /** At a header, the spares stay as they are. */
  lemma KeepsParks(s: State, t: nat, pg: Page, l: Thread, s': State)
    requires Stepped(s, t, pg, l, s') && Parks(s) && s'.spares == s.spares
    requires ParkEffect(s.pages[s.threads[t].page], s.threads[t], pg, l)
    ensures Parks(s')
  {
    forall p | 0 <= p < |s'.pages|
      ensures Sum(PlaceWeight(p), s'.spares) + Sum(CarryWeight(p), s'.threads) == Bool(s'.pages[p].parked)
    {
      SumUpdate(CarryWeight(p), s.threads, t, l);
    }
  }

  lemma HasAfter(log: seq<Event>, e: Event, p: nat, slot: nat)
    ensures Has(log + [e], p, slot) == if e.page == p && e.slot == slot then e.Made? else Has(log, p, slot)
  {
    assert (log + [e])[..|log|] == log;
  }

  lemma KeepsLogged(s: State, t: nat, pg: Page, l: Thread, s': State)
    requires Stepped(s, t, pg, l, s') && Logged(s)
    requires var pg0, l0 := s.pages[s.threads[t].page], s.threads[t];
             && LiveOk(s.config, pg0, l0) && MaskEffect(pg0, l0, pg, l) && s'.log == s.log + Happened(pg0, l0)
             && (l0.pc.ClearMask? && l0.slot in pg0.mask ==> pg.mask == pg0.mask - {l0.slot})
    ensures Logged(s')
  {
    var pg0, l0 := s.pages[s.threads[t].page], s.threads[t];
    if Happened(pg0, l0) == [] {
      assert s'.log == s.log;
    } else {
      var e := Happened(pg0, l0)[0];
      assert s'.log == s.log + [e] && s'.log[..|s.log|] == s.log;
      forall p, slot | 0 <= p < |s'.pages| ensures (slot in s'.pages[p].mask) == Has(s'.log, p, slot) {
        HasAfter(s.log, e, p, slot);
      }
    }
  }

  lemma HeaderIsOk(s: State, t: nat)
    requires Inv(s) && t < |s.threads|
    ensures HeaderOk(s.config, s.pages[s.threads[t].page], s.threads[t])
    ensures LiveOk(s.config, s.pages[s.threads[t].page], s.threads[t])
  {
    var l := s.threads[t];
    SumAtLeast(CountWeight(l.page), s.threads, t);
    SumAtLeast(CarryWeight(l.page), s.threads, t);
  }

  lemma KeepsMost(s: State, t: nat, pg: Page, l: Thread, s': State)
    requires Inv(s) && Stepped(s, t, pg, l, s')
    requires ThreadEffect(s.config, s.pages[s.threads[t].page], s.threads[t], pg, l)
    ensures Threads(s') && Bits(s') && Busies(s') && Locks(s') && Counts(s') && Cleared(s') && Backed(s') && LiveThreads(s')
    ensures Lives(s') && Summaries(s') && Retired(s')
  {
    HeaderIsOk(s, t);
    KeepsBits(s, t, pg, l, s');
    KeepsBusies(s, t, pg, l, s');
    KeepsLocks(s, t, pg, l, s');
    KeepsCounts(s, t, pg, l, s');
    if s.pages[s.threads[t].page].count == 0 {
      NobodyInside(s, t);
    }
    KeepsCleared(s, t, pg, l, s');
    KeepsBacked(s, t, pg, l, s');
    KeepsLiveThreads(s, t, pg, l, s');
    KeepsLives(s, t, pg, l, s');
    KeepsSummaries(s, t, pg, l, s');
    KeepsRetired(s, t, pg, l, s');
  }

  lemma HeaderStepped(s: State, t: nat, c: Choice)
    requires Shape(s) && Places(s) && Threads(s) && t < |s.threads|
    requires !s.threads[t].pc.Idle? && !InSpares(s.threads[t].pc)
    requires var (pg, l) := HeaderStep(s.config, s.pages[s.threads[t].page], s.threads[t], c);
             l.page < |s.pages| && !l.pc.SwapPlace?
    ensures var (pg, l), s' := HeaderStep(s.config, s.pages[s.threads[t].page], s.threads[t], c), Step(s, t, c);
            && Stepped(s, t, pg, l, s') && s'.spares == s.spares && Shape(s') && Places(s')
            && s'.log == s.log + Happened(s.pages[s.threads[t].page], s.threads[t])
  {}

  lemma HeaderStepKeeps(s: State, t: nat, c: Choice)
    requires Inv(s) && t < |s.threads| && !s.threads[t].pc.Idle? && !InSpares(s.threads[t].pc)
    ensures Inv(Step(s, t, c))
  {
    var l := s.threads[t];
    var s' := Step(s, t, c);
    var (pg, l') := HeaderStep(s.config, s.pages[l.page], l, c);
    HeaderIsOk(s, t);
    HeaderEffects(s.config, s.pages[l.page], l, c);
    HeaderStepped(s, t, c);
    KeepsMost(s, t, pg, l', s');
    KeepsParks(s, t, pg, l', s');
    KeepsLogged(s, t, pg, l', s');
  }

  lemma QuietKeeps(s: State, t: nat, l: Thread, s': State)
    requires Inv(s) && t < |s.threads| && l.page < |s.pages| && LocalOk(s.config, l) && Quiet(s.threads[t], l)
    requires s'.config == s.config && s'.pages == s.pages && s'.threads == s.threads[t := l] && s'.log == s.log
    requires Shape(s') && Places(s') && Parks(s')
    ensures Inv(s')
  {
    var pg := s.pages[s.threads[t].page];
    HeaderIsOk(s, t);
    QuietEffects(s.config, pg, s.threads[t], l);
    assert s.pages == s.pages[s.threads[t].page := pg];
    KeepsMost(s, t, pg, l, s');
  }

  lemma StartedIsQuiet(config: Config, pages: nat, l: Thread, c: Choice)
    requires config.Valid() && LocalOk(config, l) && l.pc.Idle? && l.page < pages
    ensures var l' := Started(config, pages, l, c);
            l' == l || (LocalOk(config, l') && Quiet(l, l') && l'.page < pages && !Carries(l'.pc))
  {}

  lemma IdleStepKeeps(s: State, t: nat, c: Choice)
    requires Inv(s) && t < |s.threads| && s.threads[t].pc.Idle?
    ensures Inv(Step(s, t, c))
  {
    var l := Started(s.config, |s.pages|, s.threads[t], c);
    var s' := Step(s, t, c);
    StartedIsQuiet(s.config, |s.pages|, s.threads[t], c);
    forall p | 0 <= p < |s'.pages|
      ensures Sum(PlaceWeight(p), s'.spares) + Sum(CarryWeight(p), s'.threads) == Bool(s'.pages[p].parked)
    {
      SumUpdate(CarryWeight(p), s.threads, t, l);
    }
    if l != s.threads[t] {
      QuietKeeps(s, t, l, s');
    } else {
      assert s.threads[t := l] == s.threads;
    }
  }

  /** What a step at the spares does to the thread and to one place. */
  lemma SparesStepParks(s: State, t: nat)
    requires Shape(s) && Places(s) && Threads(s) && Parks(s) && t < |s.threads| && InSpares(s.threads[t].pc)
    ensures Parks(SparesStep(s, t))
  {
    var l := s.threads[t];
    var s' := SparesStep(s, t);
    forall p | 0 <= p < |s'.pages|
      ensures Sum(PlaceWeight(p), s'.spares) + Sum(CarryWeight(p), s'.threads) == Bool(s'.pages[p].parked)
    {
      SumUpdate(CarryWeight(p), s.threads, t, s'.threads[t]);
      if l.place < |s.spares| && !l.pc.TakePlace? {
        SumUpdate(PlaceWeight(p), s.spares, l.place, s'.spares[l.place]);
      }
    }
  }

  lemma SparesStepLocal(s: State, t: nat)
    requires Shape(s) && Places(s) && Threads(s) && t < |s.threads| && InSpares(s.threads[t].pc)
    ensures var s' := SparesStep(s, t);
            s'.threads == s.threads[t := s'.threads[t]] && Quiet(s.threads[t], s'.threads[t])
  {}

  lemma SparesStepThread(s: State, t: nat)
    requires Shape(s) && Places(s) && Threads(s) && t < |s.threads| && InSpares(s.threads[t].pc)
    ensures LocalOk(s.config, SparesStep(s, t).threads[t])
  {}

  lemma SparesStepShape(s: State, t: nat)
    requires Shape(s) && Places(s) && Threads(s) && t < |s.threads| && InSpares(s.threads[t].pc)
    ensures var s' := SparesStep(s, t);
            && Shape(s') && Places(s') && s'.config == s.config && s'.pages == s.pages && s'.log == s.log
            && s'.threads[t].page < |s.pages|
  {}

  lemma SparesStepKeeps(s: State, t: nat, c: Choice)
    requires Inv(s) && t < |s.threads| && InSpares(s.threads[t].pc)
    ensures Inv(Step(s, t, c))
  {
    var s' := SparesStep(s, t);
    SparesStepParks(s, t);
    SparesStepLocal(s, t);
    SparesStepThread(s, t);
    SparesStepShape(s, t);
    QuietKeeps(s, t, s'.threads[t], s');
  }

  /** Every step of every thread keeps the invariant. */
  lemma StepKeeps(s: State, t: nat, c: Choice)
    requires Inv(s) && t < |s.threads|
    ensures Inv(Step(s, t, c))
    ensures |Step(s, t, c).threads| == |s.threads|
  {
    if s.threads[t].pc.Idle? {
      IdleStepKeeps(s, t, c);
    } else if InSpares(s.threads[t].pc) {
      SparesStepKeeps(s, t, c);
    } else {
      HeaderStepKeeps(s, t, c);
    }
  }
}
