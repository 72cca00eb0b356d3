/**
 What one step does to the header of its page and to its thread, as far as the
 invariant of ColumnInvariant needs it. Nothing here speaks of other threads.
 */
module ColumnEffects {
  import opened Counting
  import opened ColumnPage
  import opened PageSizes

  // --- what a program counter says about its thread -------------------------

  /** Neither holds a making bit nor counts. */
  predicate HoldsNone(l: Thread) {
    l.pc.Idle? || l.pc.Look? || l.pc.TakeBit? || l.pc.TrimPlace?
  }

  /** Holds the making bit of its page and slot. */
  predicate HoldsHere(l: Thread) {
    l.pc.LookHeld? || l.pc.Using? || InStart(l.pc) || l.pc.Construct? || l.pc.SetMask? || l.pc.LookSummary? ||
    l.pc.SetSummary? || l.pc.GiveBit? || l.pc.EndValue? || l.pc.GiveBitErased?
  }

  /** The count of the page has one for the thread, which the mask does not show. */
  predicate Counted(pc: Pc) {
    (InStart(pc) && !pc.CountIn? && !pc.UnlockFailed?) ||
    pc.Construct? || pc.SetMask? || pc.EndValue? || pc.GiveBitErased? || pc.CountOut?
  }

  /** Between the look that found no component and the construction. */
  predicate Adding(pc: Pc) { (InStart(pc) && !pc.CountBack? && !pc.UnlockFailed?) || pc.Construct? }

  /** Has busy set: with started as the memory is (Settled), without memory
      (Bare), or with memory that is not marked as started (Unmarked). */
  predicate Settled(pc: Pc) {
    pc.LookAgain? || pc.UnlockFailed? || pc.UnlockStarted? || pc.ClearStarted? || pc.UnlockVacated?
  }
  predicate Bare(pc: Pc) { pc.FetchMemory? || pc.CountBack? }
  predicate Unmarked(pc: Pc) { pc.MarkStarted? || pc.ReadCount? || pc.ReadBits? || pc.GiveBack? || pc.Keep? }
  predicate InBusy(pc: Pc) { Settled(pc) || Bare(pc) || Unmarked(pc) }

  /** In vacate, after it found the count at zero. */
  predicate Clearing(pc: Pc) { pc.ReadBits? || pc.GiveBack? }

  /** May write or end the value of its slot, which the page counts. */
  predicate Inside(pc: Pc) { pc.Construct? || pc.SetMask? || pc.EndValue? }

  /** Its value is constructed and not in the mask: not yet, or not any more. */
  predicate Between(pc: Pc) { pc.SetMask? || pc.EndValue? }

  /** Will put the word into the summary if its mask has a bit then. */
  predicate Marks(l: Thread, word: nat) {
    || ((l.pc.LookSummary? || l.pc.SetSummary?) && l.slot / WORD_BITS == word)
    || l.pc.LookCount?
    || ((l.pc.LookWord? || l.pc.RebuildWord?) && l.word <= word)
  }

  /** Has the page in hand on its way into or out of the spares. */
  predicate Carries(pc: Pc) { pc.TakePlace? || pc.SwapPlace? || pc.ClearParked? }

  /** Will still park the page or take its memory back. */
  predicate Retires(pc: Pc) {
    (InEmpty(pc) && !pc.CountOut?) || pc.LookParked? || pc.SetParked? || pc.LockVacate? || pc.ClearStarted? || pc.ReadCount? || pc.ReadBits? || pc.GiveBack?
  }

  /** Memory without components that is no spare and was not kept for a bit. */
  predicate Leftover(pg: Page) { pg.memory && pg.count == 0 && !pg.parked && !pg.kept }

  // --- what holds of a thread and its page at every step --------------------

  predicate LocalOk(config: Config, l: Thread) {
    && l.slot < PAGE_SIZE
    && (HoldsHere(l) ==> l.bit == Held(l.page, l.slot))
    && (HoldsNone(l) ==> l.bit == Free)
    && (l.bit.Held? ==> l.bit.slot == l.slot && (l.pc.ClearMask? ==> l.bit.page == l.page))
    && (l.trim ==> (l.pc.TrimPlace? || l.pc.ClearParked? || InVacate(l.pc)) && l.bit == Free)
    && (l.pc.TrimPlace? ==> l.trim)
    && (l.pc.ClearMask? ==> (l.bit.Held? <==> config.eraseTakesBit))
    && (l.pc.TakeBit? && l.op.Erase? ==> config.eraseTakesBit)
    && (l.pc.EndValue? ==> config.eraseTakesBit)
    && (l.pc.LookParked? || l.pc.SetParked? || l.pc.TakePlace? || l.pc.SwapPlace? ==> config.hasValue)
    && ((l.pc.RebuildWord? || l.pc.LookWord?) ==> l.word <= PAGE_WORDS)
    && (l.pc.RebuildWord? ==> l.word < PAGE_WORDS)
    && (l.pc.GiveBack? ==> l.word >= PAGE_WORDS)
  }

  /** started is the memory there is, except for the thread in busy. */
  predicate StartedOk(pg: Page, pc: Pc) {
    && (pg.started ==> pg.memory)
    && (!pg.busy ==> pg.started == pg.memory)
    && (Settled(pc) ==> pg.started == pg.memory)
    && (pc.UnlockStarted? ==> pg.started)
    && (Bare(pc) ==> !pg.memory)
    && (Unmarked(pc) ==> !pg.started && pg.memory)
    && (InBusy(pc) ==> pg.busy)
  }

  /** What a step needs of its page. */
  predicate HeaderOk(config: Config, pg: Page, l: Thread) {
    && config.Valid() && LocalOk(config, l) && StartedOk(pg, l.pc)
    && (Counted(l.pc) ==> pg.count > 0)
    && (Adding(l.pc) ==> l.slot !in pg.live)
    && (Between(l.pc) ==> l.slot in pg.live && l.slot !in pg.mask)
    && (Carries(l.pc) ==> pg.parked)
    && pg.mask <= pg.live
  }

  // --- what a step does -----------------------------------------------------

  predicate BitsEffect(pg: Page, l: Thread, pg': Page, l': Thread) {
    || (l'.bit == l.bit && pg'.making == pg.making)
    || (l.bit == Free && l.slot !in pg.making && l'.bit == Held(l.page, l.slot) && pg'.making == pg.making + {l.slot})
    || (l.bit == Held(l.page, l.slot) && l'.bit == Free && pg'.making == pg.making - {l.slot})
  }

  predicate BusyEffect(pg: Page, l: Thread, pg': Page, l': Thread) {
    && (InBusy(l'.pc) ==> l'.page == l.page && (InBusy(l.pc) || !pg.busy))
    && (pg.busy && !pg'.busy ==> InBusy(l.pc))
    && (!InBusy(l.pc) ==> pg'.started == pg.started && pg'.memory == pg.memory)
    && StartedOk(pg', if l'.page == l.page then l'.pc else Idle)
  }

  predicate LockEffect(pg: Page, l: Thread, pg': Page, l': Thread) {
    pg'.busy ==> (InBusy(l'.pc) && l'.page == l.page) || (pg.busy && !InBusy(l.pc))
  }

  predicate MaskEffect(pg: Page, l: Thread, pg': Page, l': Thread) {
    || (pg'.mask == pg.mask && pg'.live == pg.live && Between(l'.pc) == Between(l.pc) &&
        !l.pc.SetMask? && !l.pc.EndValue? && !l'.pc.EndValue? && !(l.pc.ClearMask? && l'.pc.CountOut?))
    || (l.pc.Construct? && l'.pc.SetMask? && pg'.mask == pg.mask && pg'.live == pg.live + {l.slot})
    || (l.pc.SetMask? && l'.pc.LookSummary? && pg'.mask == pg.mask + {l.slot} && pg'.live == pg.live)
    || (l.pc.ClearMask? && l.slot in pg.mask && l.bit.Held? && l'.pc.EndValue? &&
        pg'.mask == pg.mask - {l.slot} && pg'.live == pg.live)
    || (l.pc.ClearMask? && l.slot in pg.mask && l.bit.Free? && l'.pc.CountOut? &&
        pg'.mask == pg.mask - {l.slot} && pg'.live == pg.live - {l.slot})
    || (l.pc.EndValue? && l'.pc.GiveBitErased? && pg'.mask == pg.mask && pg'.live == pg.live - {l.slot})
  }

  predicate CountEffect(pg: Page, l: Thread, pg': Page, l': Thread) {
    && (Counted(l'.pc) ==> l'.page == l.page)
    && pg'.count + Bool(Counted(l.pc)) + Bool(l'.pc.CountOut? && l.pc.ClearMask?) + Bool(l'.pc.EndValue?)
       == pg.count + Bool(Counted(l'.pc)) + Bool(l.pc.SetMask?)
  }

  predicate LiveEffect(pg: Page, l: Thread, pg': Page, l': Thread) {
    && (Adding(l'.pc) ==> Adding(l.pc) || (l.pc.LookHeld? && l.slot !in pg.mask))
    && (l'.pc.Using? ==> l.pc.LookHeld? && l.slot in pg.mask)
    && (Adding(l'.pc) || Between(l'.pc) || l'.pc.Using? ==> l'.page == l.page && l'.slot == l.slot)
  }

  predicate InsideEffect(pg: Page, l: Thread, pg': Page, l': Thread) {
    && (Inside(l'.pc) ==> l'.page == l.page && (Inside(l.pc) || pg.started || pg.mask != {}))
    && (pg.memory && !pg'.memory ==> l.pc.GiveBack?)
    && (Clearing(l'.pc) ==>
          || (l.pc.ReadCount? && pg.count == 0 && l'.word == 0)
          || (Clearing(l.pc) && l'.word == l.word)
          || (Clearing(l.pc) && l'.word == l.word + 1 && WordEmpty(pg.making, l.word)))
  }

  predicate SummaryEffect(pg: Page, l: Thread, pg': Page, l': Thread) {
    && (pg.summary <= pg'.summary || l'.pc.LookCount?)
    && (l'.pc.LookCount? || l'.pc.LookSummary? ==> l'.page == l.page && l'.slot == l.slot)
    && (forall w: nat | Marks(l, w) && !(Marks(l', w) && l'.page == l.page) ::
          w in pg'.summary || WordEmpty(pg.mask, w) || pg.count == 0 || w >= PAGE_WORDS)
  }

  predicate ParkEffect(pg: Page, l: Thread, pg': Page, l': Thread) {
    && (Carries(l'.pc) ==> l'.page == l.page) && !l'.pc.SwapPlace?
    && (l'.page == l.page || l.bit == Held(l'.page, l.slot))
    && Bool(pg'.parked) + Bool(Carries(l.pc)) == Bool(pg.parked) + Bool(Carries(l'.pc))
  }

  predicate RetireEffect(pg: Page, l: Thread, pg': Page, l': Thread) {
    Leftover(pg') ==> (Retires(l'.pc) && l'.page == l.page) || (Leftover(pg) && !Retires(l.pc))
  }

  /** A step that leaves every header as it is and changes nothing the others
      rely on: an idle thread starts, or a step at the spares. */
  predicate Quiet(l: Thread, l': Thread) {
    && l'.bit == l.bit
    && !InBusy(l.pc) && !Counted(l.pc) && !Adding(l.pc) && !Between(l.pc) && !Retires(l.pc) && !Clearing(l.pc)
    && !InBusy(l'.pc) && !Counted(l'.pc) && !Adding(l'.pc) && !Between(l'.pc) && !Clearing(l'.pc)
    && !l.pc.SetMask? && !l.pc.ClearMask? && !l.pc.Using? && !l'.pc.Using? && !l'.pc.LookCount? && !l'.pc.LookSummary?
    && !l'.pc.EndValue? && !l'.pc.CountOut? && !l.pc.LookSummary? && !l.pc.SetSummary?
  }

  predicate ThreadEffect(config: Config, pg: Page, l: Thread, pg': Page, l': Thread) {
    && LocalOk(config, l')
    && BitsEffect(pg, l, pg', l') && BusyEffect(pg, l, pg', l') && LockEffect(pg, l, pg', l') && MaskEffect(pg, l, pg', l')
    && CountEffect(pg, l, pg', l') && LiveEffect(pg, l, pg', l') && InsideEffect(pg, l, pg', l')
    && SummaryEffect(pg, l, pg', l') && RetireEffect(pg, l, pg', l')
  }

  lemma EnterLocal(config: Config, pg: Page, l: Thread)
    requires HeaderOk(config, pg, l) && InEnter(l.pc)
    ensures var (pg', l') := EnterStep(config, pg, l); LocalOk(config, l') && BitsEffect(pg, l, pg', l')
  {}

  lemma EnterBusy(config: Config, pg: Page, l: Thread)
    requires HeaderOk(config, pg, l) && InEnter(l.pc)
    ensures var (pg', l') := EnterStep(config, pg, l); BusyEffect(pg, l, pg', l') && LockEffect(pg, l, pg', l')
  {}

  lemma EnterMask(config: Config, pg: Page, l: Thread)
    requires HeaderOk(config, pg, l) && InEnter(l.pc)
    ensures var (pg', l') := EnterStep(config, pg, l); MaskEffect(pg, l, pg', l') && CountEffect(pg, l, pg', l')
  {}

  lemma EnterLive(config: Config, pg: Page, l: Thread)
    requires HeaderOk(config, pg, l) && InEnter(l.pc)
    ensures var (pg', l') := EnterStep(config, pg, l); LiveEffect(pg, l, pg', l') && RetireEffect(pg, l, pg', l')
  {}

  lemma EnterPage(config: Config, pg: Page, l: Thread)
    requires HeaderOk(config, pg, l) && InEnter(l.pc)
    ensures var (pg', l') := EnterStep(config, pg, l); InsideEffect(pg, l, pg', l') && SummaryEffect(pg, l, pg', l') && ParkEffect(pg, l, pg', l')
  {}

  lemma StartLocal(config: Config, pg: Page, l: Thread, c: Choice)
    requires HeaderOk(config, pg, l) && InStart(l.pc)
    ensures var (pg', l') := StartStep(config, pg, l, c); LocalOk(config, l') && BitsEffect(pg, l, pg', l')
  {}

  lemma StartBusy(config: Config, pg: Page, l: Thread, c: Choice)
    requires HeaderOk(config, pg, l) && InStart(l.pc)
    ensures var (pg', l') := StartStep(config, pg, l, c); BusyEffect(pg, l, pg', l') && LockEffect(pg, l, pg', l')
  {}

  lemma StartMask(config: Config, pg: Page, l: Thread, c: Choice)
    requires HeaderOk(config, pg, l) && InStart(l.pc)
    ensures var (pg', l') := StartStep(config, pg, l, c); MaskEffect(pg, l, pg', l') && CountEffect(pg, l, pg', l')
  {}

  lemma StartLive(config: Config, pg: Page, l: Thread, c: Choice)
    requires HeaderOk(config, pg, l) && InStart(l.pc)
    ensures var (pg', l') := StartStep(config, pg, l, c); LiveEffect(pg, l, pg', l') && RetireEffect(pg, l, pg', l')
  {}

  lemma StartPage(config: Config, pg: Page, l: Thread, c: Choice)
    requires HeaderOk(config, pg, l) && InStart(l.pc)
    ensures var (pg', l') := StartStep(config, pg, l, c); SummaryEffect(pg, l, pg', l') && ParkEffect(pg, l, pg', l')
  {}

  lemma StartInside(config: Config, pg: Page, l: Thread, c: Choice)
    requires HeaderOk(config, pg, l) && InStart(l.pc)
    ensures var (pg', l') := StartStep(config, pg, l, c); InsideEffect(pg, l, pg', l')
  {}

  lemma MakeLocal(config: Config, pg: Page, l: Thread, c: Choice)
    requires HeaderOk(config, pg, l) && InMake(l.pc)
    ensures var (pg', l') := MakeStep(config, pg, l, c); LocalOk(config, l') && BitsEffect(pg, l, pg', l')
  {}

  lemma MakeBusy(config: Config, pg: Page, l: Thread, c: Choice)
    requires HeaderOk(config, pg, l) && InMake(l.pc)
    ensures var (pg', l') := MakeStep(config, pg, l, c); BusyEffect(pg, l, pg', l') && LockEffect(pg, l, pg', l')
  {}

  lemma MakeMask(config: Config, pg: Page, l: Thread, c: Choice)
    requires HeaderOk(config, pg, l) && InMake(l.pc)
    ensures var (pg', l') := MakeStep(config, pg, l, c); MaskEffect(pg, l, pg', l') && CountEffect(pg, l, pg', l')
  {}

  lemma MakeLive(config: Config, pg: Page, l: Thread, c: Choice)
    requires HeaderOk(config, pg, l) && InMake(l.pc)
    ensures var (pg', l') := MakeStep(config, pg, l, c); LiveEffect(pg, l, pg', l') && RetireEffect(pg, l, pg', l')
  {}

  lemma MakePage(config: Config, pg: Page, l: Thread, c: Choice)
    requires HeaderOk(config, pg, l) && InMake(l.pc)
    ensures var (pg', l') := MakeStep(config, pg, l, c); InsideEffect(pg, l, pg', l') && SummaryEffect(pg, l, pg', l') && ParkEffect(pg, l, pg', l')
  {}

  lemma EraseLocal(config: Config, pg: Page, l: Thread)
    requires HeaderOk(config, pg, l) && InErase(l.pc)
    ensures var (pg', l') := EraseStep(pg, l); LocalOk(config, l') && BitsEffect(pg, l, pg', l')
  {}

  lemma EraseBusy(config: Config, pg: Page, l: Thread)
    requires HeaderOk(config, pg, l) && InErase(l.pc)
    ensures var (pg', l') := EraseStep(pg, l); BusyEffect(pg, l, pg', l') && LockEffect(pg, l, pg', l')
  {}

  lemma EraseMask(config: Config, pg: Page, l: Thread)
    requires HeaderOk(config, pg, l) && InErase(l.pc)
    ensures var (pg', l') := EraseStep(pg, l); MaskEffect(pg, l, pg', l') && CountEffect(pg, l, pg', l')
  {}

  lemma EraseLive(config: Config, pg: Page, l: Thread)
    requires HeaderOk(config, pg, l) && InErase(l.pc)
    ensures var (pg', l') := EraseStep(pg, l); LiveEffect(pg, l, pg', l') && RetireEffect(pg, l, pg', l')
  {}

  lemma ErasePage(config: Config, pg: Page, l: Thread)
    requires HeaderOk(config, pg, l) && InErase(l.pc)
    ensures var (pg', l') := EraseStep(pg, l); InsideEffect(pg, l, pg', l') && SummaryEffect(pg, l, pg', l') && ParkEffect(pg, l, pg', l')
  {}

  lemma EmptyLocal(config: Config, pg: Page, l: Thread)
    requires HeaderOk(config, pg, l) && InEmpty(l.pc)
    ensures var (pg', l') := EmptyStep(config, pg, l); LocalOk(config, l')
  {}

  lemma EmptyBits(config: Config, pg: Page, l: Thread)
    requires HeaderOk(config, pg, l) && InEmpty(l.pc)
    ensures var (pg', l') := EmptyStep(config, pg, l); BitsEffect(pg, l, pg', l')
  {}

  lemma EmptyBusy(config: Config, pg: Page, l: Thread)
    requires HeaderOk(config, pg, l) && InEmpty(l.pc)
    ensures var (pg', l') := EmptyStep(config, pg, l); BusyEffect(pg, l, pg', l') && LockEffect(pg, l, pg', l')
  {}

  lemma EmptyMask(config: Config, pg: Page, l: Thread)
    requires HeaderOk(config, pg, l) && InEmpty(l.pc)
    ensures var (pg', l') := EmptyStep(config, pg, l); MaskEffect(pg, l, pg', l')
  {}

  lemma EmptyCount(config: Config, pg: Page, l: Thread)
    requires HeaderOk(config, pg, l) && InEmpty(l.pc)
    ensures var (pg', l') := EmptyStep(config, pg, l); CountEffect(pg, l, pg', l')
  {}

  lemma EmptyLive(config: Config, pg: Page, l: Thread)
    requires HeaderOk(config, pg, l) && InEmpty(l.pc)
    ensures var (pg', l') := EmptyStep(config, pg, l); LiveEffect(pg, l, pg', l') && RetireEffect(pg, l, pg', l')
  {}

  lemma EmptyPage(config: Config, pg: Page, l: Thread)
    requires HeaderOk(config, pg, l) && InEmpty(l.pc)
    ensures var (pg', l') := EmptyStep(config, pg, l); InsideEffect(pg, l, pg', l') && SummaryEffect(pg, l, pg', l') && ParkEffect(pg, l, pg', l')
  {}

  lemma ParkLocal(config: Config, pg: Page, l: Thread)
    requires HeaderOk(config, pg, l) && InPark(l.pc)
    ensures var (pg', l') := ParkStep(pg, l); LocalOk(config, l') && BitsEffect(pg, l, pg', l')
  {}

  lemma ParkBusy(config: Config, pg: Page, l: Thread)
    requires HeaderOk(config, pg, l) && InPark(l.pc)
    ensures var (pg', l') := ParkStep(pg, l); BusyEffect(pg, l, pg', l') && LockEffect(pg, l, pg', l')
  {}

  lemma ParkMask(config: Config, pg: Page, l: Thread)
    requires HeaderOk(config, pg, l) && InPark(l.pc)
    ensures var (pg', l') := ParkStep(pg, l); MaskEffect(pg, l, pg', l') && CountEffect(pg, l, pg', l')
  {}

  lemma ParkLive(config: Config, pg: Page, l: Thread)
    requires HeaderOk(config, pg, l) && InPark(l.pc)
    ensures var (pg', l') := ParkStep(pg, l); LiveEffect(pg, l, pg', l') && RetireEffect(pg, l, pg', l')
  {}

  lemma ParkPage(config: Config, pg: Page, l: Thread)
    requires HeaderOk(config, pg, l) && InPark(l.pc)
    ensures var (pg', l') := ParkStep(pg, l); InsideEffect(pg, l, pg', l') && SummaryEffect(pg, l, pg', l') && ParkEffect(pg, l, pg', l')
  {}

  lemma VacateLocal(config: Config, pg: Page, l: Thread)
    requires HeaderOk(config, pg, l) && InVacate(l.pc)
    ensures var (pg', l') := VacateStep(pg, l); LocalOk(config, l')
  {
    if l.pc.UnlockVacated? {
      FinishLocal(config, l);
    }
  }

  lemma FinishLocal(config: Config, l: Thread)
    requires LocalOk(config, l) && l.pc.UnlockVacated?
    ensures LocalOk(config, Finish(l))
  {}

  lemma VacateBits(config: Config, pg: Page, l: Thread)
    requires HeaderOk(config, pg, l) && InVacate(l.pc)
    ensures var (pg', l') := VacateStep(pg, l); BitsEffect(pg, l, pg', l')
  {}

  lemma VacateBusy(config: Config, pg: Page, l: Thread)
    requires HeaderOk(config, pg, l) && InVacate(l.pc)
    ensures var (pg', l') := VacateStep(pg, l); BusyEffect(pg, l, pg', l') && LockEffect(pg, l, pg', l')
  {}

  lemma VacateMask(config: Config, pg: Page, l: Thread)
    requires HeaderOk(config, pg, l) && InVacate(l.pc)
    ensures var (pg', l') := VacateStep(pg, l); MaskEffect(pg, l, pg', l')
  {}

  lemma VacateCount(config: Config, pg: Page, l: Thread)
    requires HeaderOk(config, pg, l) && InVacate(l.pc)
    ensures var (pg', l') := VacateStep(pg, l); CountEffect(pg, l, pg', l')
  {}

  lemma VacateLive(config: Config, pg: Page, l: Thread)
    requires HeaderOk(config, pg, l) && InVacate(l.pc)
    ensures var (pg', l') := VacateStep(pg, l); LiveEffect(pg, l, pg', l') && RetireEffect(pg, l, pg', l')
  {}

  lemma VacatePage(config: Config, pg: Page, l: Thread)
    requires HeaderOk(config, pg, l) && InVacate(l.pc)
    ensures var (pg', l') := VacateStep(pg, l); InsideEffect(pg, l, pg', l') && SummaryEffect(pg, l, pg', l') && ParkEffect(pg, l, pg', l')
  {}

  /** Every step at a header does no more than ThreadEffect and ParkEffect say. */
  lemma HeaderEffects(config: Config, pg: Page, l: Thread, c: Choice)
    requires HeaderOk(config, pg, l) && !l.pc.Idle? && !InSpares(l.pc)
    ensures var (pg', l') := HeaderStep(config, pg, l, c);
            ThreadEffect(config, pg, l, pg', l') && ParkEffect(pg, l, pg', l')
  {
    if InEnter(l.pc) {
      EnterLocal(config, pg, l);
      EnterBusy(config, pg, l);
      EnterMask(config, pg, l);
      EnterLive(config, pg, l);
      EnterPage(config, pg, l);
    } else if InStart(l.pc) {
      StartLocal(config, pg, l, c);
      StartBusy(config, pg, l, c);
      StartMask(config, pg, l, c);
      StartLive(config, pg, l, c);
      StartPage(config, pg, l, c);
      StartInside(config, pg, l, c);
    } else if InMake(l.pc) {
      MakeLocal(config, pg, l, c);
      MakeBusy(config, pg, l, c);
      MakeMask(config, pg, l, c);
      MakeLive(config, pg, l, c);
      MakePage(config, pg, l, c);
    } else if InErase(l.pc) {
      EraseLocal(config, pg, l);
      EraseBusy(config, pg, l);
      EraseMask(config, pg, l);
      EraseLive(config, pg, l);
      ErasePage(config, pg, l);
    } else if InEmpty(l.pc) {
      EmptyLocal(config, pg, l);
      EmptyBits(config, pg, l);
      EmptyBusy(config, pg, l);
      EmptyMask(config, pg, l);
      EmptyCount(config, pg, l);
      EmptyLive(config, pg, l);
      EmptyPage(config, pg, l);
    } else if InPark(l.pc) {
      ParkLocal(config, pg, l);
      ParkBusy(config, pg, l);
      ParkMask(config, pg, l);
      ParkLive(config, pg, l);
      ParkPage(config, pg, l);
    } else {
      VacateLocal(config, pg, l);
      VacateBits(config, pg, l);
      VacateBusy(config, pg, l);
      VacateMask(config, pg, l);
      VacateCount(config, pg, l);
      VacateLive(config, pg, l);
      VacatePage(config, pg, l);
    }
  }

  lemma QuietEffects(config: Config, pg: Page, l: Thread, l': Thread)
    requires HeaderOk(config, pg, l) && LocalOk(config, l') && Quiet(l, l')
    ensures ThreadEffect(config, pg, l, pg, l')
  {}
}
