/**
 The life of the pages of a column (column.hpp) under any number of threads
 that add, replace, modify and erase components and trim the spares.

 One step of a thread is one access to an atomic of a page header or of the
 spares. The words of mask, making and summary are kept as sets of slots and
 of word numbers; the bits of word w are the slots with slot / 64 == w.
 */
module ColumnPage {
  import opened PageSizes

  const NO_PAGE: int := -1

  /** hasValue, destroys: HAS_VALUE and DESTROYS of the column. eraseTakesBit:
      whether erase takes the making bit, for DESTROYS or onRemove hooks. */
  datatype Config = Config(hasValue: bool, destroys: bool, eraseTakesBit: bool) {
    predicate Valid() { destroys ==> hasValue && eraseTakesBit }
  }

  /** A page header, and what it governs: whether the values have memory, which
      values are constructed, and whether the last vacate kept the memory for a
      making bit and the page was not emptied since. */
  datatype Page = Page(
    mask: set<nat>, making: set<nat>, summary: set<nat>, count: nat,
    started: bool, busy: bool, parked: bool,
    memory: bool, live: set<nat>, kept: bool)

  /** What a thread is about to do next, one atomic access each. */
  datatype Pc =
    | Idle
    // The look at the mask before anything else, the making bit, the look under it.
    | Look | TakeBit | LookHeld
    // The function of modify, or the assignment of emplaceOr.
    | Using
    // occupy and start
    | CountIn | LookStarted | LockStart | LookAgain | FetchMemory | CountBack | UnlockFailed | MarkStarted | UnlockStarted
    // The component, its bit of the mask and of the summary.
    | Construct | SetMask | LookSummary | SetSummary
    | GiveBit
    | ClearMask | EndValue | GiveBitErased
    // forsake and emptied
    | CountOut | ClearSummary | LookCount | LookWord | RebuildWord
    // park and unpark
    | LookParked | SetParked | TakePlace | SwapPlace | ClearParked
    // vacate
    | LockVacate | ClearStarted | ReadCount | ReadBits | GiveBack | Keep | UnlockVacated
    | TrimPlace

  datatype Op = TryEmplace | EmplaceOr | Modify | Erase

  datatype Bit = Free | Held(page: nat, slot: nat)

  /** page and slot: what the thread works on; bit: the making bit it holds;
      word, place: the counters of its loops; trim: whether it is in trim. */
  datatype Thread = Thread(pc: Pc, op: Op, page: nat, slot: nat, bit: Bit, word: nat, place: nat, trim: bool)

  datatype Event = Made(page: nat, slot: nat) | Erased(page: nat, slot: nat)

  datatype State = State(
    config: Config, pages: seq<Page>, spares: seq<int>, nextSpare: nat,
    threads: seq<Thread>, log: seq<Event>)

  /** What an idle thread starts, and whether a step that may throw does. */
  datatype Choice = Go | Throw | Begin(op: Op, page: nat, slot: nat) | Trim

  predicate WordEmpty(slots: set<nat>, word: nat) {
    forall slot | slot in slots :: slot / WORD_BITS != word
  }

  /** After the last step of an operation: trim goes on with the next spare, a
      thread that still holds its making bit gives it back. */
  function Finish(l: Thread): Thread {
    if l.trim then l.(pc := TrimPlace)
    else if l.bit.Held? then l.(pc := GiveBit, page := l.bit.page)
    else l.(pc := Idle)
  }

  function ParkOrVacate(config: Config, l: Thread): Thread {
    l.(pc := if config.hasValue then LookParked else LockVacate)
  }

  predicate InEnter(pc: Pc) { pc.Look? || pc.TakeBit? || pc.LookHeld? || pc.Using? }

  /** The way into tryEmplace, emplaceOr, modify and erase up to the bit. */
  function EnterStep(config: Config, pg: Page, l: Thread): (Page, Thread) {
    match l.pc
    case Look =>
      (pg, if l.op.TryEmplace? then l.(pc := if l.slot in pg.mask then Idle else TakeBit)
           else if l.slot !in pg.mask then l.(pc := Idle)
           else if l.op.Erase? && !config.eraseTakesBit then l.(pc := ClearMask)
           else l.(pc := TakeBit))
    case TakeBit =>
      if l.slot in pg.making
      then (pg, if l.op.TryEmplace? then l.(pc := Idle) else l)
      else (pg.(making := pg.making + {l.slot}),
            l.(pc := if l.op.Erase? then ClearMask else LookHeld, bit := Held(l.page, l.slot)))
    case LookHeld =>
      (pg, if l.slot in pg.mask then l.(pc := if l.op.TryEmplace? then GiveBit else Using)
           else l.(pc := if l.op.Modify? then GiveBit else CountIn))
    case Using => (pg, l.(pc := GiveBit))
    case _ => (pg, l)
  }

  predicate InStart(pc: Pc) {
    pc.CountIn? || pc.LookStarted? || pc.LockStart? || pc.LookAgain? || pc.FetchMemory? || pc.CountBack? ||
    pc.UnlockFailed? || pc.MarkStarted? || pc.UnlockStarted?
  }

  /** occupy of one component, and start. */
  function StartStep(config: Config, pg: Page, l: Thread, c: Choice): (Page, Thread) {
    match l.pc
    case CountIn => (pg.(count := pg.count + 1), l.(pc := LookStarted))
    case LookStarted => (pg, l.(pc := if pg.started then Construct else LockStart))
    case LockStart => if pg.busy then (pg, l) else (pg.(busy := true), l.(pc := LookAgain))
    case LookAgain => (pg, l.(pc := if pg.started then UnlockStarted else FetchMemory))
    case FetchMemory =>
      if config.hasValue && c.Throw? then (pg, l.(pc := CountBack)) else (pg.(memory := true), l.(pc := MarkStarted))
    case CountBack => (pg.(count := if pg.count > 0 then pg.count - 1 else 0), l.(pc := UnlockFailed))
    case UnlockFailed => (pg.(busy := false), l.(pc := GiveBit))
    case MarkStarted => (pg.(started := true), l.(pc := UnlockStarted))
    case UnlockStarted => (pg.(busy := false), l.(pc := Construct))
    case _ => (pg, l)
  }

  predicate InMake(pc: Pc) { pc.Construct? || pc.SetMask? || pc.LookSummary? || pc.SetSummary? }

  /** The component, then its bit of the mask, then its word in the summary. */
  function MakeStep(config: Config, pg: Page, l: Thread, c: Choice): (Page, Thread) {
    match l.pc
    case Construct =>
      if config.hasValue && c.Throw? then (pg, l.(pc := CountOut))
      else (pg.(live := pg.live + {l.slot}), l.(pc := SetMask))
    case SetMask => (pg.(mask := pg.mask + {l.slot}), l.(pc := LookSummary))
    case LookSummary => (pg, l.(pc := if l.slot / WORD_BITS in pg.summary then GiveBit else SetSummary))
    case SetSummary => (pg.(summary := pg.summary + {l.slot / WORD_BITS}), l.(pc := GiveBit))
    case _ => (pg, l)
  }

  predicate InErase(pc: Pc) { pc.GiveBit? || pc.ClearMask? || pc.EndValue? || pc.GiveBitErased? }

  /** The bit of the mask and the value taken away, and the making bit given back. */
  function EraseStep(pg: Page, l: Thread): (Page, Thread) {
    match l.pc
    case GiveBit => (pg.(making := pg.making - {l.slot}), l.(pc := Idle, bit := Free))
    case ClearMask =>
      if l.slot !in pg.mask then (pg, Finish(l))
      else if l.bit.Held? then (pg.(mask := pg.mask - {l.slot}), l.(pc := EndValue))
      else (pg.(mask := pg.mask - {l.slot}, live := pg.live - {l.slot}), l.(pc := CountOut))
    case EndValue => (pg.(live := pg.live - {l.slot}), l.(pc := GiveBitErased))
    case GiveBitErased => (pg.(making := pg.making - {l.slot}), l.(pc := CountOut, bit := Free))
    case _ => (pg, l)
  }

  predicate InEmpty(pc: Pc) {
    pc.CountOut? || pc.ClearSummary? || pc.LookCount? || pc.LookWord? || pc.RebuildWord?
  }

  /** forsake of one component, and emptied up to park. */
  function EmptyStep(config: Config, pg: Page, l: Thread): (Page, Thread) {
    match l.pc
    case CountOut =>
      if pg.count == 1 then (pg.(count := 0, kept := false), l.(pc := ClearSummary))
      else (pg.(count := if pg.count > 0 then pg.count - 1 else 0), Finish(l))
    case ClearSummary => (pg.(summary := {}), l.(pc := LookCount))
    case LookCount => (pg, if pg.count != 0 then l.(pc := LookWord, word := 0) else ParkOrVacate(config, l))
    case LookWord =>
      (pg, if l.word >= PAGE_WORDS then ParkOrVacate(config, l)
           else if WordEmpty(pg.mask, l.word) then l.(word := l.word + 1)
           else l.(pc := RebuildWord))
    case RebuildWord => (pg.(summary := pg.summary + {l.word}), l.(pc := LookWord, word := l.word + 1))
    case _ => (pg, l)
  }

  predicate InPark(pc: Pc) { pc.LookParked? || pc.SetParked? || pc.ClearParked? }

  /** park up to the spares, and unpark up to vacate. */
  function ParkStep(pg: Page, l: Thread): (Page, Thread) {
    match l.pc
    case LookParked => (pg, if pg.parked then Finish(l) else l.(pc := SetParked))
    case SetParked => if pg.parked then (pg, Finish(l)) else (pg.(parked := true), l.(pc := TakePlace))
    case ClearParked => (pg.(parked := false), l.(pc := LockVacate))
    case _ => (pg, l)
  }

  predicate InVacate(pc: Pc) {
    pc.LockVacate? || pc.ClearStarted? || pc.ReadCount? || pc.ReadBits? || pc.GiveBack? ||
    pc.Keep? || pc.UnlockVacated?
  }

  function VacateStep(pg: Page, l: Thread): (Page, Thread) {
    match l.pc
    case LockVacate => if pg.busy then (pg, l) else (pg.(busy := true), l.(pc := ClearStarted))
    case ClearStarted =>
      if pg.started then (pg.(started := false), l.(pc := ReadCount)) else (pg, l.(pc := UnlockVacated))
    case ReadCount => (pg, if pg.count != 0 then l.(pc := Keep) else l.(pc := ReadBits, word := 0))
    case ReadBits =>
      if l.word >= PAGE_WORDS then (pg, l.(pc := GiveBack))
      else if WordEmpty(pg.making, l.word) then (pg, l.(word := l.word + 1))
      else (pg.(kept := true), l.(pc := Keep))
    case GiveBack => (pg.(memory := false), l.(pc := UnlockVacated))
    case Keep => (pg.(started := true), l.(pc := UnlockVacated))
    case UnlockVacated => (pg.(busy := false), Finish(l))
    case _ => (pg, l)
  }

  function HeaderStep(config: Config, pg: Page, l: Thread, c: Choice): (Page, Thread) {
    if InEnter(l.pc) then EnterStep(config, pg, l)
    else if InStart(l.pc) then StartStep(config, pg, l, c)
    else if InMake(l.pc) then MakeStep(config, pg, l, c)
    else if InErase(l.pc) then EraseStep(pg, l)
    else if InEmpty(l.pc) then EmptyStep(config, pg, l)
    else if InPark(l.pc) then ParkStep(pg, l)
    else VacateStep(pg, l)
  }

  /** The make or erase that a step is, if it is one. */
  function Happened(pg: Page, l: Thread): seq<Event> {
    if l.pc.SetMask? then [Made(l.page, l.slot)]
    else if l.pc.ClearMask? && l.slot in pg.mask then [Erased(l.page, l.slot)]
    else []
  }

  /** What an idle thread starts. A component without members is not modified. */
  function Started(config: Config, pages: nat, l: Thread, c: Choice): Thread {
    if c.Trim? then l.(pc := TrimPlace, trim := true, place := 0)
    else if c.Begin? && c.page < pages && c.slot < PAGE_SIZE && (c.op.Modify? ==> config.hasValue) then
      l.(pc := if c.op.EmplaceOr? then TakeBit else Look, op := c.op, page := c.page, slot := c.slot)
    else l
  }

  predicate InSpares(pc: Pc) { pc.TakePlace? || pc.SwapPlace? || pc.TrimPlace? }

  predicate Shape(s: State) {
    && s.config.Valid()
    && (s.config.hasValue ==> |s.spares| >= 1)
    && (forall i | 0 <= i < |s.spares| :: s.spares[i] == NO_PAGE || 0 <= s.spares[i] < |s.pages|)
    && (forall t | 0 <= t < |s.threads| :: s.threads[t].page < |s.pages|)
  }

  /** The steps at the spares: the rest of park, and trim. */
  function SparesStep(s: State, t: nat): State
    requires t < |s.threads|
    requires forall i | 0 <= i < |s.spares| :: s.spares[i] >= NO_PAGE
  {
    var l := s.threads[t];
    if l.pc.TakePlace? && |s.spares| > 0 then
      s.(nextSpare := (s.nextSpare + 1) % 0x1_0000_0000,
         threads := s.threads[t := l.(pc := SwapPlace, place := s.nextSpare % |s.spares|)])
    else if l.place >= |s.spares| then
      s.(threads := s.threads[t := l.(pc := Idle, trim := false)])
    else
      var out := s.spares[l.place];
      if l.pc.SwapPlace? then
        s.(spares := s.spares[l.place := l.page],
           threads := s.threads[t := if out == NO_PAGE then Finish(l) else l.(pc := ClearParked, page := out)])
      else
        s.(spares := s.spares[l.place := NO_PAGE],
           threads := s.threads[t := if out == NO_PAGE then l.(place := l.place + 1)
                                     else l.(pc := ClearParked, page := out, place := l.place + 1)])
  }

  /** One step of thread t. */
  function Step(s: State, t: nat, c: Choice): State
    requires Shape(s) && t < |s.threads|
  {
    var l := s.threads[t];
    if l.pc.Idle? then s.(threads := s.threads[t := Started(s.config, |s.pages|, l, c)])
    else if InSpares(l.pc) then SparesStep(s, t)
    else
      var (pg, after) := HeaderStep(s.config, s.pages[l.page], l, c);
      s.(pages := s.pages[l.page := pg], threads := s.threads[t := after],
         log := s.log + Happened(s.pages[l.page], l))
  }
}
