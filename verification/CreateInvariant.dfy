/**
 What every step of a create keeps: locks and shares are one thread's, pages get
 one owner, the row of pages has no gap, and every index of a page with an owner
 is in one place.
 */
module CreateInvariant {
  import opened Options
  import opened FreeList
  import opened Lists
  import opened PageSizes
  import opened Entities
  import opened Creates
  import E = EntityAllocator

  // --- what a program counter says about its thread -------------------------

  predicate UsesShare(pc: Pc) { !pc.Idle? && !pc.LockShared? }

  /** The page of the share is used up. */
  predicate NeedsPage(pc: Pc) { pc.LockPage? || InPages(pc) || pc.StartPage? }

  /** The page has its owner, and is not in the share. */
  predicate HasNewPage(pc: Pc) { pc.StoreCount? || pc.UnlockPage? || pc.StartPage? }

  predicate ShareOk(share: Share, list: List, l: Thread) {
    && (l.pc.FetchSub? || l.pc.ReadChunk? ==> share.left == 0)
    && (l.pc.ReadChunk? ==> 0 < l.before <= |list.chunks|)
    && (l.pc.HandChunk? ==> share.left > 0)
    && (NeedsPage(l.pc) ==> share.next == share.end)
    && (l.pc.HandPage? ==> share.next < share.end)
  }

  /** The pages that makePage went past: from start on, past the last one from 0. */
  predicate Passed(owners: seq<nat>, start: nat, l: Thread) {
    && l.page < |owners| && l.tried <= |owners|
    && (l.page == start + l.tried || l.page + |owners| == start + l.tried)
    && (forall p | start <= p < |owners| && p < start + l.tried :: owners[p] != 0)
    && (forall p | 0 <= p < |owners| && p + |owners| < start + l.tried :: owners[p] != 0)
  }

  predicate IsNewRow(order: seq<nat>, pageCount: nat, l: Thread) {
    l.place == pageCount < |order| && order[pageCount] == l.page
  }

  predicate PageOk(owners: seq<nat>, order: seq<nat>, pageCount: nat, zeroed: set<nat>, start: nat, l: Thread) {
    && (l.pc.Scan? ==> Passed(owners, start, l))
    && (l.pc.NoPage? ==> E.AllTaken(owners))
    && (l.pc.ZeroPage? || l.pc.StoreOrder? || l.pc.StoreOwner? ==> l.page < |owners| && owners[l.page] == 0)
    && (l.pc.StoreOrder? ==> l.page in zeroed && l.place == pageCount < |order|)
    && (l.pc.StoreOwner? ==> l.page in zeroed && IsNewRow(order, pageCount, l))
    && (l.pc.StoreCount? ==> IsNewRow(order, pageCount, l))
  }

  // --- the invariant --------------------------------------------------------

  ghost predicate Locks(s: State) {
    && (forall t | 0 <= t < |s.threads| && InPages(s.threads[t].pc) :: s.pageLock == Some(t))
    && (s.pageLock.Some? ==> s.pageLock.value < |s.threads| && InPages(s.threads[s.pageLock.value].pc))
    && (forall t | 0 <= t < |s.threads| && MAX_THREADS <= t && UsesShare(s.threads[t].pc) :: s.shareLock == Some(t))
  }

  ghost predicate Shares(s: State)
    requires Shape(s)
  {
    forall t | 0 <= t < |s.threads| && !s.threads[t].pc.Idle? ::
      var area := s.areas[s.threads[t].area]; ShareOk(area.shares[ShareOf(t)], area.free, s.threads[t])
  }

  ghost predicate PagesOk(s: State)
    requires Shape(s)
  {
    forall t | 0 <= t < |s.threads| && !s.threads[t].pc.Idle? ::
      PageOk(s.owners, s.order, s.pageCount, s.zeroed, s.areas[s.threads[t].area].cursor, s.threads[t])
  }

  predicate Installing(s: State) {
    s.pageLock.Some? && s.pageLock.value < |s.threads| && s.threads[s.pageLock.value].pc.StoreCount?
  }

  /** The row of the pages is those with an owner, but for one that a thread is
      about to count. */
  predicate Row(s: State) {
    && s.pageCount <= |s.order|
    && s.handed == s.order[..s.pageCount] + if Installing(s) then [s.threads[s.pageLock.value].page] else []
  }

  ghost predicate Owners(s: State) {
    && E.Owned(s.owners, s.handed, |s.areas|)
    && (forall p | 0 <= p < |s.owners| && s.owners[p] != 0 :: p in s.zeroed)
  }

  /** What a thread has taken and not put into its share yet: a chunk of the
      list, or a page. */
  function Flight(areas: seq<Area>, l: Thread): multiset<nat> {
    if l.pc.ReadChunk? && l.area < |areas| && 0 < l.before <= |areas[l.area].free.chunks| then
      multiset(IndicesOf(areas[l.area].free.chunks[l.before - 1]))
    else if HasNewPage(l.pc) then PageOf(l.page)
    else multiset{}
  }

  function IndicesOf(chunk: Chunk): seq<nat> { if chunk.count <= |chunk.indices| then chunk.indices[..chunk.count] else [] }

  function FlightsOf(areas: seq<Area>, threads: seq<Thread>): (parts: seq<multiset<nat>>)
    ensures |parts| == |threads| && forall t {:trigger parts[t]} | 0 <= t < |threads| :: parts[t] == Flight(areas, threads[t])
  {
    seq(|threads|, t requires 0 <= t < |threads| => Flight(areas, threads[t]))
  }

  function Flights(s: State): multiset<nat> { Together(FlightsOf(s.areas, s.threads)) }

  /** Every index of a page with an owner is in one place. */
  ghost predicate Places(s: State) { E.Partition(s.alive, Flights(s), s.areas, s.handed) }

  ghost predicate Inv(s: State) {
    Shape(s) && Locks(s) && Shares(s) && PagesOk(s) && Row(s) && Owners(s) && Places(s)
  }

  // --- shape and locks ------------------------------------------------------

  /** What a step does to the locks, and where its thread stands then. */
  predicate LockEffect(s: State, t: nat, s': State)
    requires t < |s.threads| == |s'.threads|
  {
    var l, l' := s.threads[t], s'.threads[t];
    && s'.threads == s.threads[t := l']
    && (if s'.pageLock == s.pageLock then InPages(l'.pc) == InPages(l.pc)
        else if s.pageLock.None? then s'.pageLock == Some(t) && InPages(l'.pc)
        else s'.pageLock.None? && InPages(l.pc) && !InPages(l'.pc))
    && (if s'.shareLock == s.shareLock then UsesShare(l'.pc) ==> t < MAX_THREADS || UsesShare(l.pc)
        else if s.shareLock.None? then s'.shareLock == Some(t)
        else MAX_THREADS <= t && UsesShare(l.pc) && !UsesShare(l'.pc))
  }

  lemma LocksKeep(s: State, t: nat, s': State)
    requires t < |s.threads| == |s'.threads| && Locks(s) && LockEffect(s, t, s')
    ensures Locks(s')
  {}

  /** The places of all that is in the state, and the locks. */
  ghost predicate ShapeEffect(s: State, t: nat, s': State)
    requires t < |s.threads|
  {
    |s'.threads| == |s.threads| && |s'.areas| == |s.areas| && |s'.owners| == |s.owners| && Shape(s') && LockEffect(s, t, s')
  }

  lemma TakeShape(s: State, t: nat)
    requires Shape(s) && t < |s.threads| && InTake(s.threads[t].pc)
    ensures ShapeEffect(s, t, TakeInArea(s, t))
  {}

  lemma HandShape(s: State, t: nat)
    requires Shape(s) && t < |s.threads| && InHand(s.threads[t].pc)
    ensures ShapeEffect(s, t, HandStep(s, t))
  {}

  lemma PageShape(s: State, t: nat)
    requires Shape(s) && t < |s.threads| && InPages(s.threads[t].pc) && Locks(s)
    ensures ShapeEffect(s, t, PageStep(s, t))
  {}

  lemma ShareShape(s: State, t: nat)
    requires Shape(s) && t < |s.threads| && Locks(s)
    requires var pc := s.threads[t].pc; pc.LockShared? || pc.LockPage? || pc.StartPage? || pc.Done?
    ensures ShapeEffect(s, t, ShareStep(s, t))
  {}

  lemma IdleShape(s: State, t: nat, c: Choice)
    requires Shape(s) && t < |s.threads| && s.threads[t].pc.Idle?
    ensures ShapeEffect(s, t, IdleStep(s, t, c))
  {}

  lemma StepShape(s: State, t: nat, c: Choice)
    requires Shape(s) && t < |s.threads| && Locks(s)
    ensures ShapeEffect(s, t, Step(s, t, c)) && Locks(Step(s, t, c))
  {
    var pc := s.threads[t].pc;
    if pc.Idle? {
      IdleShape(s, t, c);
    } else if InTake(pc) {
      TakeShape(s, t);
    } else if InHand(pc) {
      HandShape(s, t);
    } else if InPages(pc) {
      PageShape(s, t);
    } else {
      ShareShape(s, t);
    }
    LocksKeep(s, t, Step(s, t, c));
  }
  // --- shares ---------------------------------------------------------------

  /** A step changes no share but that of its thread, and no chunk of a list. */
  ghost predicate ShareEffect(s: State, t: nat, s': State)
    requires Shape(s) && t < |s.threads| && ShapeEffect(s, t, s')
  {
    var l, l' := s.threads[t], s'.threads[t];
    && (forall a, k | 0 <= a < |s.areas| && 0 <= k <= MAX_THREADS && (a != l.area || k != ShareOf(t) || !UsesShare(l.pc)) ::
          s'.areas[a].shares[k] == s.areas[a].shares[k])
    && (forall a | 0 <= a < |s.areas| :: s'.areas[a].free.chunks == s.areas[a].free.chunks)
    && (!l'.pc.Idle? ==> ShareOk(s'.areas[l'.area].shares[ShareOf(t)], s'.areas[l'.area].free, l'))
  }

  lemma SharesKeep(s: State, t: nat, s': State)
    requires Shape(s) && t < |s.threads| && Locks(s) && Shares(s) && ShapeEffect(s, t, s') && ShareEffect(s, t, s')
    ensures Shares(s')
  {
    forall u | 0 <= u < |s'.threads| && u != t && !s'.threads[u].pc.Idle?
      ensures var area := s'.areas[s'.threads[u].area]; ShareOk(area.shares[ShareOf(u)], area.free, s'.threads[u])
    {
      var l := s.threads[u];
      assert s'.threads[u] == l;
      assert ShareOk(s.areas[l.area].shares[ShareOf(u)], s.areas[l.area].free, l);
      assert UsesShare(l.pc) && UsesShare(s.threads[t].pc) ==> ShareOf(u) != ShareOf(t);
    }
  }

  lemma TakeShares(s: State, t: nat)
    requires Shape(s) && t < |s.threads| && InTake(s.threads[t].pc) && Shares(s) && ShapeEffect(s, t, TakeInArea(s, t))
    ensures ShareEffect(s, t, TakeInArea(s, t))
  {
    var l := s.threads[t];
    assert ShareOk(s.areas[l.area].shares[ShareOf(t)], s.areas[l.area].free, l);
  }

  lemma HandShares(s: State, t: nat)
    requires Shape(s) && t < |s.threads| && InHand(s.threads[t].pc) && Shares(s) && ShapeEffect(s, t, HandStep(s, t))
    ensures ShareEffect(s, t, HandStep(s, t))
  {
    var l := s.threads[t];
    assert ShareOk(s.areas[l.area].shares[ShareOf(t)], s.areas[l.area].free, l);
  }

  /** makePage leaves shares and lists alone. */
  lemma PageKeepsAreas(s: State, t: nat)
    requires Shape(s) && t < |s.threads| && InPages(s.threads[t].pc)
    ensures var l, s' := s.threads[t], PageStep(s, t);
      && |s'.areas| == |s.areas| && |s'.threads| == |s.threads| && s'.threads[t].area == l.area
      && (forall a | 0 <= a < |s.areas| :: s'.areas[a].shares == s.areas[a].shares && s'.areas[a].free == s.areas[a].free)
      && (NeedsPage(s'.threads[t].pc) || s'.threads[t].pc.Done?)
  {}

  lemma PageShares(s: State, t: nat)
    requires Shape(s) && t < |s.threads| && InPages(s.threads[t].pc) && Shares(s) && ShapeEffect(s, t, PageStep(s, t))
    ensures ShareEffect(s, t, PageStep(s, t))
  {
    var l := s.threads[t];
    assert ShareOk(s.areas[l.area].shares[ShareOf(t)], s.areas[l.area].free, l);
    PageKeepsAreas(s, t);
  }

  lemma StartShares(s: State, t: nat)
    requires Shape(s) && t < |s.threads| && s.threads[t].pc.StartPage? && ShapeEffect(s, t, ShareStep(s, t))
    ensures ShareEffect(s, t, ShareStep(s, t))
  {}

  lemma LockShares(s: State, t: nat)
    requires Shape(s) && t < |s.threads| && Shares(s)
    requires var pc := s.threads[t].pc; pc.LockShared? || pc.LockPage? || pc.Done?
    requires ShapeEffect(s, t, ShareStep(s, t))
    ensures ShareEffect(s, t, ShareStep(s, t))
  {
    var l := s.threads[t];
    assert ShareOk(s.areas[l.area].shares[ShareOf(t)], s.areas[l.area].free, l);
  }

  lemma IdleShares(s: State, t: nat, c: Choice)
    requires Shape(s) && t < |s.threads| && s.threads[t].pc.Idle? && Locks(s) && Shares(s) && ShapeEffect(s, t, IdleStep(s, t, c))
    ensures Shares(IdleStep(s, t, c))
  {
    if !CanGive(s, c) {
      SharesKeep(s, t, IdleStep(s, t, c));
    }
  }

  lemma StepShares(s: State, t: nat, c: Choice)
    requires Shape(s) && t < |s.threads| && Locks(s) && Shares(s) && ShapeEffect(s, t, Step(s, t, c))
    ensures !s.threads[t].pc.Idle? ==> ShareEffect(s, t, Step(s, t, c))
    ensures Shares(Step(s, t, c))
  {
    var pc := s.threads[t].pc;
    if pc.Idle? {
      IdleShares(s, t, c);
      return;
    } else if InTake(pc) {
      TakeShares(s, t);
    } else if InHand(pc) {
      HandShares(s, t);
    } else if InPages(pc) {
      PageShares(s, t);
    } else if pc.StartPage? {
      StartShares(s, t);
    } else {
      LockShares(s, t);
    }
    SharesKeep(s, t, Step(s, t, c));
  }
  // --- pages ----------------------------------------------------------------

  ghost predicate Paged(s: State) { Shape(s) && PagesOk(s) && Row(s) && Owners(s) }

  /** A step outside makePage leaves owners, row and cursors as they are. */
  ghost predicate PageEffect(s: State, t: nat, s': State)
    requires Shape(s) && t < |s.threads| && ShapeEffect(s, t, s')
  {
    var l' := s'.threads[t];
    && s'.owners == s.owners && s'.order == s.order && s'.pageCount == s.pageCount && s'.zeroed == s.zeroed
    && s'.handed == s.handed && (forall a | 0 <= a < |s.areas| :: s'.areas[a].cursor == s.areas[a].cursor)
    && !InPages(s.threads[t].pc) && (InPages(l'.pc) ==> l'.pc.Scan? && Passed(s.owners, s.areas[l'.area].cursor, l'))
  }

  lemma PagesKeep(s: State, t: nat, s': State)
    requires Shape(s) && t < |s.threads| && Locks(s) && Paged(s) && ShapeEffect(s, t, s') && PageEffect(s, t, s')
    ensures Paged(s')
  {
    forall u | 0 <= u < |s'.threads| && u != t && !s'.threads[u].pc.Idle?
      ensures PageOk(s'.owners, s'.order, s'.pageCount, s'.zeroed, s'.areas[s'.threads[u].area].cursor, s'.threads[u])
    {
      assert s'.threads[u] == s.threads[u];
    }
  }

  lemma TakePages(s: State, t: nat)
    requires Shape(s) && t < |s.threads| && InTake(s.threads[t].pc) && ShapeEffect(s, t, TakeInArea(s, t))
    ensures PageEffect(s, t, TakeInArea(s, t))
  {}

  lemma HandPages(s: State, t: nat)
    requires Shape(s) && t < |s.threads| && InHand(s.threads[t].pc) && ShapeEffect(s, t, HandStep(s, t))
    ensures PageEffect(s, t, HandStep(s, t))
  {}

  lemma SharePages(s: State, t: nat)
    requires Shape(s) && t < |s.threads|
    requires var pc := s.threads[t].pc; pc.LockShared? || pc.LockPage? || pc.StartPage? || pc.Done?
    requires ShapeEffect(s, t, ShareStep(s, t))
    ensures PageEffect(s, t, ShareStep(s, t))
  {}

  lemma IdlePages(s: State, t: nat, c: Choice)
    requires Shape(s) && t < |s.threads| && s.threads[t].pc.Idle? && ShapeEffect(s, t, IdleStep(s, t, c))
    ensures PageEffect(s, t, IdleStep(s, t, c))
  {}

  // makePage: the others are not in it, so that only its own thread counts.

  lemma OwnPages(s: State, t: nat, s': State)
    requires Shape(s) && t < |s.threads| && Locks(s) && InPages(s.threads[t].pc) && ShapeEffect(s, t, s')
    requires var l' := s'.threads[t];
      l'.pc.Idle? || PageOk(s'.owners, s'.order, s'.pageCount, s'.zeroed, s'.areas[l'.area].cursor, l')
    ensures PagesOk(s')
  {
    forall u | 0 <= u < |s'.threads| && u != t ensures !InPages(s'.threads[u].pc) {
      assert s'.threads[u] == s.threads[u];
    }
  }

  lemma {:induction false} OnceFits(list: seq<nat>, count: nat)
    requires Once(list) && forall k | 0 <= k < |list| :: list[k] < count
    ensures |list| <= count
  {
    if list != [] {
      assert list[0] < count;
      if last: nat :| last < |list| && list[last] == count - 1 {
        OnceFits(list[..last] + list[last + 1..], count - 1);
      } else {
        OnceFits(list, count - 1);
      }
    }
  }

  /** There is room in the row for a page nobody has. */
  lemma RowHasRoom(owners: seq<nat>, handed: seq<nat>, areas: nat, page: nat)
    requires E.Owned(owners, handed, areas) && page < |owners| && owners[page] == 0
    ensures |handed| < |owners|
  {
    OnceFits(handed + [page], |owners|);
  }

  lemma ScanKeeps(owners: seq<nat>, start: nat, l: Thread)
    requires Passed(owners, start, l) && start < |owners| && l.tried < |owners| && owners[l.page] != 0
    ensures Passed(owners, start, l.(page := NextPage(l.page, |owners|), tried := l.tried + 1))
  {}

  lemma ScanEnds(owners: seq<nat>, start: nat, l: Thread)
    requires Passed(owners, start, l) && start < |owners| && l.tried == |owners|
    ensures E.AllTaken(owners)
  {}

  lemma ScanPages(s: State, t: nat)
    requires t < |s.threads| && s.threads[t].pc.Scan? && Paged(s) && Locks(s) && ShapeEffect(s, t, PageStep(s, t))
    ensures Paged(PageStep(s, t))
  {
    var l, s' := s.threads[t], PageStep(s, t);
    var start := s.areas[l.area].cursor;
    if l.tried >= |s.owners| {
      ScanEnds(s.owners, start, l);
    } else if s.owners[l.page] != 0 {
      ScanKeeps(s.owners, start, l);
    }
    OwnPages(s, t, s');
  }

  lemma ZeroPages(s: State, t: nat)
    requires t < |s.threads| && s.threads[t].pc.ZeroPage? && Paged(s) && Locks(s) && ShapeEffect(s, t, PageStep(s, t))
    ensures Paged(PageStep(s, t))
  {
    var l, s' := s.threads[t], PageStep(s, t);
    RowHasRoom(s.owners, s.handed, |s.areas|, l.page);
    OwnPages(s, t, s');
  }

  lemma OrderPages(s: State, t: nat)
    requires t < |s.threads| && s.threads[t].pc.StoreOrder? && Paged(s) && Locks(s) && ShapeEffect(s, t, PageStep(s, t))
    ensures Paged(PageStep(s, t))
  {
    var l, s' := s.threads[t], PageStep(s, t);
    assert s'.order[..s.pageCount] == s.order[..s.pageCount];
    OwnPages(s, t, s');
  }

  lemma OwnerPages(s: State, t: nat)
    requires t < |s.threads| && s.threads[t].pc.StoreOwner? && Paged(s) && Locks(s) && ShapeEffect(s, t, PageStep(s, t))
    ensures Paged(PageStep(s, t))
  {
    var l, s' := s.threads[t], PageStep(s, t);
    E.PageIsNew(s.owners, s.handed, |s.areas|, l.page, l.area + 1);
    OwnPages(s, t, s');
  }

  lemma CountPages(s: State, t: nat)
    requires t < |s.threads| && s.threads[t].pc.StoreCount? && Paged(s) && Locks(s) && ShapeEffect(s, t, PageStep(s, t))
    ensures Paged(PageStep(s, t))
  {
    var l, s' := s.threads[t], PageStep(s, t);
    assert s.order[..s.pageCount + 1] == s.order[..s.pageCount] + [l.page];
    OwnPages(s, t, s');
  }

  lemma UnlockPages(s: State, t: nat)
    requires t < |s.threads| && (s.threads[t].pc.UnlockPage? || s.threads[t].pc.NoPage?)
    requires Paged(s) && Locks(s) && ShapeEffect(s, t, PageStep(s, t))
    ensures Paged(PageStep(s, t))
  {
    OwnPages(s, t, PageStep(s, t));
  }

  lemma MakePages(s: State, t: nat)
    requires t < |s.threads| && InPages(s.threads[t].pc) && Paged(s) && Locks(s) && ShapeEffect(s, t, PageStep(s, t))
    ensures Paged(PageStep(s, t))
  {
    match s.threads[t].pc
    case Scan => ScanPages(s, t);
    case ZeroPage => ZeroPages(s, t);
    case StoreOrder => OrderPages(s, t);
    case StoreOwner => OwnerPages(s, t);
    case StoreCount => CountPages(s, t);
    case _ => UnlockPages(s, t);
  }

  lemma StepPages(s: State, t: nat, c: Choice)
    requires t < |s.threads| && Paged(s) && Locks(s) && ShapeEffect(s, t, Step(s, t, c))
    ensures Paged(Step(s, t, c))
  {
    var pc := s.threads[t].pc;
    if InPages(pc) {
      MakePages(s, t);
      return;
    } else if pc.Idle? {
      IdlePages(s, t, c);
    } else if InTake(pc) {
      TakePages(s, t);
    } else if InHand(pc) {
      HandPages(s, t);
    } else {
      SharePages(s, t);
    }
    PagesKeep(s, t, Step(s, t, c));
  }
  // --- places ---------------------------------------------------------------

  ghost predicate SameChunks(areas: seq<Area>, areas': seq<Area>) {
    |areas'| == |areas| && forall a | 0 <= a < |areas| :: areas'[a].free.chunks == areas[a].free.chunks
  }

  lemma PartsMore(parts: seq<multiset<nat>>, t: nat, part: multiset<nat>, more: multiset<nat>)
    requires t < |parts| && part == parts[t] + more
    ensures Together(parts[t := part]) == Together(parts) + more
  {
    PartChanges(parts, t, part);
    CancelPart(Together(parts), Together(parts[t := part]), parts[t], part, more);
  }

  ghost predicate OneThread(s: State, t: nat, s': State) {
    t < |s.threads| == |s'.threads| && s'.threads == s.threads[t := s'.threads[t]] && SameChunks(s.areas, s'.areas)
  }

  lemma FlightParts(s: State, t: nat, s': State)
    requires OneThread(s, t, s')
    ensures FlightsOf(s'.areas, s'.threads) == FlightsOf(s.areas, s.threads)[t := Flight(s.areas, s'.threads[t])]
    ensures FlightsOf(s.areas, s.threads) == FlightsOf(s'.areas, s'.threads)[t := Flight(s.areas, s.threads[t])]
  {
    forall u | 0 <= u < |s.threads| ensures Flight(s'.areas, s'.threads[u]) == Flight(s.areas, s'.threads[u]) {}
  }

  /** What is in flight changes by what the thread of a step has more or less. */
  lemma FlightsMore(s: State, t: nat, s': State, more: multiset<nat>)
    requires OneThread(s, t, s') && Flight(s.areas, s'.threads[t]) == Flight(s.areas, s.threads[t]) + more
    ensures Flights(s') == Flights(s) + more
  {
    FlightParts(s, t, s');
    PartsMore(FlightsOf(s.areas, s.threads), t, Flight(s.areas, s'.threads[t]), more);
  }

  lemma FlightsLess(s: State, t: nat, s': State, less: multiset<nat>)
    requires OneThread(s, t, s') && Flight(s.areas, s.threads[t]) == Flight(s.areas, s'.threads[t]) + less
    ensures Flights(s) == Flights(s') + less
  {
    FlightParts(s, t, s');
    PartsMore(FlightsOf(s'.areas, s'.threads), t, Flight(s.areas, s.threads[t]), less);
  }

  /** Nothing goes anywhere. */
  lemma NothingMoves(s: State, t: nat, s': State)
    requires OneThread(s, t, s')
    requires Flight(s.areas, s'.threads[t]) == Flight(s.areas, s.threads[t]) && Held(s'.areas) == Held(s.areas)
    requires s'.alive == s.alive && s'.handed == s.handed && Places(s)
    ensures Places(s')
  {
    FlightsMore(s, t, s', multiset{});
  }

  lemma Departs(others: multiset<nat>, flights: multiset<nat>, held: multiset<nat>, moved: multiset<nat>, pages: multiset<nat>)
    requires others + flights + (held + moved) == pages
    ensures others + (flights + moved) + held == pages
  {
    assert others + (flights + moved) + held == others + flights + (held + moved);
  }

  lemma Arrives(others: multiset<nat>, flights: multiset<nat>, held: multiset<nat>, moved: multiset<nat>, pages: multiset<nat>)
    requires others + (flights + moved) + held == pages
    ensures others + flights + (held + moved) == pages
  {
    assert others + flights + (held + moved) == others + (flights + moved) + held;
  }

  /** An area that has less. */
  lemma AreaLess(areas: seq<Area>, a: nat, area: Area, less: multiset<nat>)
    requires a < |areas| && HeldByArea(areas[a]) == HeldByArea(area) + less
    ensures Held(areas) == Held(areas[a := area]) + less
  {
    AreaChanges(areas, a, area);
    CancelPart(Held(areas[a := area]), Held(areas), HeldByArea(area), HeldByArea(areas[a]), less);
  }

  lemma LastChunkGoes(area: Area, less: List)
    requires less == area.free.(left := area.free.left - 1)
    ensures HeldByArea(area) == HeldByArea(area.(free := less)) + multiset(Leaving(area.free))
  {
    LeftGoesDown(area.free);
    assert multiset(Listed(area.free)) == multiset(Listed(less)) + multiset(Leaving(area.free));
  }

  /** What leaves an area is in flight. */
  lemma GoesIntoFlight(s: State, t: nat, s': State, a: nat, area: Area, moved: multiset<nat>)
    requires OneThread(s, t, s') && a < |s.areas| && s'.areas == s.areas[a := area] && HeldByArea(s.areas[a]) == HeldByArea(area) + moved
    requires Flight(s.areas, s'.threads[t]) == Flight(s.areas, s.threads[t]) + moved
    requires s'.alive == s.alive && s'.handed == s.handed && Places(s)
    ensures Places(s')
  {
    AreaLess(s.areas, a, area, moved);
    FlightsMore(s, t, s', moved);
    Departs(multiset(s.alive), Flights(s), Held(s'.areas), moved, Pages(s.handed));
  }

  /** What was in flight is in the share. */
  lemma GetsIntoShare(s: State, t: nat, s': State, a: nat, k: nat, share: Share, moved: multiset<nat>)
    requires OneThread(s, t, s') && a < |s.areas| && k < |s.areas[a].shares| && s'.areas == WithShare(s.areas, a, k, share)
    requires HeldByShare(share) == HeldByShare(s.areas[a].shares[k]) + moved
    requires Flight(s.areas, s.threads[t]) == Flight(s.areas, s'.threads[t]) + moved
    requires s'.alive == s.alive && s'.handed == s.handed && Places(s)
    ensures Places(s')
  {
    E.ShareGets(s.areas, a, k, share, moved);
    FlightsLess(s, t, s', moved);
    Arrives(multiset(s.alive), Flights(s'), Held(s.areas), moved, Pages(s.handed));
  }

  ghost predicate Fetched(s: State, t: nat, s': State)
    requires Shape(s) && t < |s.threads| && !s.threads[t].pc.Idle?
  {
    var l := s.threads[t];
    var area := s.areas[l.area];
    && OneThread(s, t, s') && s'.areas == s.areas[l.area := area.(free := area.free.(left := area.free.left - 1))]
    && Flight(s.areas, s'.threads[t]) == Flight(s.areas, l) + multiset(Leaving(area.free))
    && s'.alive == s.alive && s'.handed == s.handed
  }

  lemma FetchEffect(s: State, t: nat)
    requires Shape(s) && t < |s.threads| && s.threads[t].pc.FetchSub?
    ensures Fetched(s, t, TakeInArea(s, t))
  {}

  /** fetch_sub: the last chunk of the list, if one is left, is the thread's. */
  lemma FetchPlaces(s: State, t: nat, s': State)
    requires Shape(s) && t < |s.threads| && !s.threads[t].pc.Idle? && Places(s) && Fetched(s, t, s')
    ensures Places(s')
  {
    var l, area := s.threads[t], s.areas[s.threads[t].area];
    var less: List := area.free.(left := area.free.left - 1);
    LastChunkGoes(area, less);
    GoesIntoFlight(s, t, s', l.area, area.(free := less), multiset(Leaving(area.free)));
  }

  /** The chunk is in the share. */
  lemma ReadPlaces(s: State, t: nat)
    requires Shape(s) && t < |s.threads| && s.threads[t].pc.ReadChunk? && Shares(s) && Places(s)
    requires ShapeEffect(s, t, TakeInArea(s, t))
    ensures Places(TakeInArea(s, t))
  {
    var l, k := s.threads[t], ShareOf(t);
    var area := s.areas[l.area];
    assert ShareOk(area.shares[k], area.free, l);
    var chunk := area.free.chunks[l.before - 1];
    GetsIntoShare(s, t, TakeInArea(s, t), l.area, k, ShareWith(area.shares[k], chunk), multiset(IndicesOf(chunk)));
  }

  /** No share, no list and nothing in flight is touched. */
  ghost predicate Quiet(s: State, t: nat, s': State) {
    && OneThread(s, t, s') && s'.areas == s.areas && s'.alive == s.alive && s'.handed == s.handed
    && Flight(s.areas, s'.threads[t]) == Flight(s.areas, s.threads[t])
  }

  lemma LookEffect(s: State, t: nat)
    requires Shape(s) && t < |s.threads| && s.threads[t].pc.LookLeft?
    ensures Quiet(s, t, TakeInArea(s, t))
  {
    assert TakeInArea(s, t).areas == s.areas;
  }

  lemma TakePlaces(s: State, t: nat)
    requires Shape(s) && t < |s.threads| && InTake(s.threads[t].pc) && Shares(s) && Places(s)
    requires ShapeEffect(s, t, TakeInArea(s, t))
    ensures Places(TakeInArea(s, t))
  {
    if s.threads[t].pc.FetchSub? {
      FetchEffect(s, t);
      FetchPlaces(s, t, TakeInArea(s, t));
    } else if s.threads[t].pc.ReadChunk? {
      ReadPlaces(s, t);
    } else {
      LookEffect(s, t);
      NothingMoves(s, t, TakeInArea(s, t));
    }
  }

  lemma LastOfChunk(share: Share)
    requires share.left > 0
    ensures HeldByShare(share) == HeldByShare(RestOf(share, Pc.HandChunk)) + multiset{IndexOf(share, Pc.HandChunk)}
  {
    assert share.chunk[..share.left] == share.chunk[..share.left - 1] + [share.chunk[share.left - 1]];
  }

  lemma NextOfPage(share: Share)
    requires share.next < share.end
    ensures HeldByShare(share) == HeldByShare(RestOf(share, Pc.HandPage)) + multiset{IndexOf(share, Pc.HandPage)}
  {
    RangeStarts(share.next, share.end);
    E.HeldMore(Range(share.next + 1, share.end), multiset{share.next}, multiset(share.chunk[..share.left]));
  }

  predicate HasIndex(share: Share, pc: Pc) { (pc.HandChunk? && share.left > 0) || (pc.HandPage? && share.next < share.end) }

  lemma IndexLeaves(share: Share, pc: Pc)
    requires HasIndex(share, pc)
    ensures HeldByShare(share) == HeldByShare(RestOf(share, pc)) + multiset{IndexOf(share, pc)}
  {
    if pc.HandChunk? {
      LastOfChunk(share);
    } else {
      NextOfPage(share);
    }
  }

  lemma IndexGoes(s: State, t: nat, s': State, a: nat, k: nat, rest: Share, index: nat)
    requires OneThread(s, t, s') && a < |s.areas| && k < |s.areas[a].shares| && s'.areas == WithShare(s.areas, a, k, rest)
    requires HeldByShare(s.areas[a].shares[k]) == HeldByShare(rest) + multiset{index}
    requires Flight(s.areas, s'.threads[t]) == Flight(s.areas, s.threads[t])
    requires s'.alive == s.alive + {index} && s'.handed == s.handed && Places(s) && Once(s.handed)
    ensures Places(s') && index !in s.alive && index / PAGE_SIZE in s.handed
  {
    E.IndexGoes(s.alive, Flights(s), s.areas, s.handed, a, k, rest, index);
    FlightsMore(s, t, s', multiset{});
  }

  lemma IndexEffect(s: State, t: nat, share: Share)
    requires Shape(s) && t < |s.threads| && InHand(s.threads[t].pc)
    requires share == s.areas[s.threads[t].area].shares[ShareOf(t)] && HasIndex(share, s.threads[t].pc)
    ensures var l, s' := s.threads[t], HandStep(s, t);
      && OneThread(s, t, s') && s'.areas == WithShare(s.areas, l.area, ShareOf(t), RestOf(share, l.pc))
      && Flight(s.areas, s'.threads[t]) == Flight(s.areas, l)
      && s'.alive == s.alive + {IndexOf(share, l.pc)} && s'.handed == s.handed
  {}

  /** An index that is handed out was in the share of the thread and nowhere else. */
  lemma IndexPlaces(s: State, t: nat, share: Share)
    requires Shape(s) && t < |s.threads| && InHand(s.threads[t].pc) && Owners(s) && Places(s)
    requires share == s.areas[s.threads[t].area].shares[ShareOf(t)] && HasIndex(share, s.threads[t].pc)
    ensures Places(HandStep(s, t))
    ensures var index := IndexOf(share, s.threads[t].pc); index !in s.alive && index / PAGE_SIZE in s.handed
  {
    var l := s.threads[t];
    IndexLeaves(share, l.pc);
    IndexEffect(s, t, share);
    IndexGoes(s, t, HandStep(s, t), l.area, ShareOf(t), RestOf(share, l.pc), IndexOf(share, l.pc));
  }

  lemma HandPlaces(s: State, t: nat)
    requires Shape(s) && t < |s.threads| && InHand(s.threads[t].pc) && Shares(s) && Owners(s) && Places(s)
    requires ShapeEffect(s, t, HandStep(s, t))
    ensures Places(HandStep(s, t))
  {
    var l := s.threads[t];
    var share := s.areas[l.area].shares[ShareOf(t)];
    assert ShareOk(share, s.areas[l.area].free, l);
    if l.pc.LookPage? {
      NothingMoves(s, t, HandStep(s, t));
    } else {
      IndexPlaces(s, t, share);
    }
  }
  lemma OwnerEffect(s: State, t: nat)
    requires Shape(s) && t < |s.threads| && s.threads[t].pc.StoreOwner? && s.threads[t].page < |s.owners|
    ensures var l, s' := s.threads[t], PageStep(s, t);
      && OneThread(s, t, s') && s'.areas == s.areas && s'.alive == s.alive && s'.handed == s.handed + [l.page]
      && Flight(s.areas, l) == multiset{} && Flight(s.areas, s'.threads[t]) == PageOf(l.page)
  {}

  /** A page that gets its owner is in flight. */
  lemma OwnerPlaces(s: State, t: nat)
    requires Shape(s) && t < |s.threads| && s.threads[t].pc.StoreOwner? && s.threads[t].page < |s.owners| && Places(s)
    ensures Places(PageStep(s, t))
  {
    var l, s' := s.threads[t], PageStep(s, t);
    OwnerEffect(s, t);
    FlightsMore(s, t, s', PageOf(l.page));
    assert s'.handed[..|s.handed|] == s.handed;
    PageComes(multiset(s.alive), Flights(s), Held(s.areas), PageOf(l.page), Pages(s.handed));
  }

  lemma PageComes(others: multiset<nat>, flights: multiset<nat>, held: multiset<nat>, page: multiset<nat>, pages: multiset<nat>)
    requires others + flights + held == pages
    ensures others + (flights + page) + held == pages + page
  {
    assert others + (flights + page) + held == others + flights + held + page;
  }

  lemma CursorMoves(areas: seq<Area>, a: nat, cursor: nat)
    requires a < |areas|
    ensures Held(areas[a := areas[a].(cursor := cursor)]) == Held(areas)
  {
    E.AreaKeeps(areas, a, areas[a].(cursor := cursor));
  }

  /** The other steps of makePage move the cursor at most. */
  lemma MakeEffect(s: State, t: nat)
    requires Shape(s) && t < |s.threads| && InPages(s.threads[t].pc) && !s.threads[t].pc.StoreOwner?
    ensures var l, s' := s.threads[t], PageStep(s, t); var cursor := NextPage(l.page, |s.owners|);
      && OneThread(s, t, s') && s'.alive == s.alive && s'.handed == s.handed
      && (s'.areas == s.areas || s'.areas == s.areas[l.area := s.areas[l.area].(cursor := cursor)])
      && HasNewPage(s'.threads[t].pc) == HasNewPage(l.pc) && !s'.threads[t].pc.ReadChunk?
      && (HasNewPage(l.pc) ==> s'.threads[t].page == l.page)
  {}

  lemma PagePlaces(s: State, t: nat)
    requires t < |s.threads| && InPages(s.threads[t].pc) && Paged(s) && Places(s)
    ensures Places(PageStep(s, t))
  {
    var l := s.threads[t];
    if l.pc.StoreOwner? {
      OwnerPlaces(s, t);
    } else {
      MakeEffect(s, t);
      CursorMoves(s.areas, l.area, NextPage(l.page, |s.owners|));
      NothingMoves(s, t, PageStep(s, t));
    }
  }

  lemma ShareWithPage(share: Share, first: nat)
    requires share.next == share.end
    ensures HeldByShare(share.(next := first, end := first + PAGE_SIZE)) ==
            HeldByShare(share) + Range(first, first + PAGE_SIZE)
  {
    E.HeldMore(multiset{}, Range(first, first + PAGE_SIZE), multiset(share.chunk[..share.left]));
  }

  lemma StartEffect(s: State, t: nat)
    requires Shape(s) && t < |s.threads| && s.threads[t].pc.StartPage?
    ensures var l, s' := s.threads[t], ShareStep(s, t); var share := s.areas[l.area].shares[ShareOf(t)];
      var first := l.page * PAGE_SIZE;
      && OneThread(s, t, s')
      && s'.areas == WithShare(s.areas, l.area, ShareOf(t), share.(next := first, end := first + PAGE_SIZE))
      && Flight(s.areas, l) == PageOf(l.page) && Flight(s.areas, s'.threads[t]) == multiset{}
      && s'.alive == s.alive && s'.handed == s.handed
  {}

  /** The page is in the share. */
  lemma StartPlaces(s: State, t: nat)
    requires Shape(s) && t < |s.threads| && s.threads[t].pc.StartPage? && Shares(s) && Places(s)
    ensures Places(ShareStep(s, t))
  {
    var l := s.threads[t];
    var area, first := s.areas[l.area], l.page * PAGE_SIZE;
    var share := area.shares[ShareOf(t)];
    assert ShareOk(share, area.free, l);
    ShareWithPage(share, first);
    StartEffect(s, t);
    GetsIntoShare(s, t, ShareStep(s, t), l.area, ShareOf(t), share.(next := first, end := first + PAGE_SIZE), PageOf(l.page));
  }

  lemma LockMoves(s: State, t: nat)
    requires Shape(s) && t < |s.threads|
    requires var pc := s.threads[t].pc; pc.LockShared? || pc.LockPage? || pc.Done?
    ensures Quiet(s, t, ShareStep(s, t))
  {
    var pc := ShareStep(s, t).threads[t].pc;
    assert !pc.ReadChunk? && !HasNewPage(pc);
    assert ShareStep(s, t).areas == s.areas;
  }

  lemma BeginMoves(s: State, t: nat, c: Choice)
    requires Shape(s) && t < |s.threads| && s.threads[t].pc.Idle? && !CanGive(s, c)
    ensures Quiet(s, t, IdleStep(s, t, c))
  {}

  lemma LockPlaces(s: State, t: nat)
    requires Shape(s) && t < |s.threads| && Places(s)
    requires var pc := s.threads[t].pc; pc.LockShared? || pc.LockPage? || pc.Done?
    ensures Places(ShareStep(s, t))
  {
    LockMoves(s, t);
    NothingMoves(s, t, ShareStep(s, t));
  }

  lemma NothingInFlight(s: State)
    requires AllIdle(s)
    ensures Flights(s) == multiset{}
  {
    E.TogetherNothing(FlightsOf(s.areas, s.threads));
  }

  lemma {:induction false} OnceAsSet(list: seq<nat>)
    requires Once(list)
    ensures multiset(list) == multiset(set i | i in list)
  {
    if list != [] {
      var init, last := list[..|list| - 1], list[|list| - 1];
      OnceAsSet(init);
      assert list == init + [last];
      assert (set i | i in list) == (set i | i in init) + {last};
      assert last !in init;
    }
  }

  lemma GiveBack(alive: set<nat>, held: multiset<nat>, held': multiset<nat>, pages: multiset<nat>, indices: seq<nat>)
    requires multiset(alive) + multiset{} + held == pages && held' == held + multiset(indices)
    requires Once(indices) && forall k | 0 <= k < |indices| :: indices[k] in alive
    ensures multiset(alive - (set i | i in indices)) + multiset{} + held' == pages
  {
    var gone := set i | i in indices;
    OnceAsSet(indices);
    assert alive == (alive - gone) + gone;
    assert multiset(alive) == multiset(alive - gone) + multiset(gone);
  }

  lemma GivePlaces(s: State, t: nat, c: Choice)
    requires Shape(s) && t < |s.threads| && CanGive(s, c) && Places(s)
    ensures Places(IdleStep(s, t, c))
  {
    var s' := IdleStep(s, t, c);
    NothingInFlight(s);
    NothingInFlight(s');
    assert multiset(Listed(c.list)) == multiset(Listed(s.areas[c.from].free)) + multiset(c.indices);
    E.ListGrows(s.areas, c.from, c.list, multiset(c.indices));
    GiveBack(s.alive, Held(s.areas), Held(s'.areas), Pages(s.handed), c.indices);
  }

  lemma IdlePlaces(s: State, t: nat, c: Choice)
    requires Shape(s) && t < |s.threads| && s.threads[t].pc.Idle? && Places(s)
    ensures Places(IdleStep(s, t, c))
  {
    if CanGive(s, c) {
      GivePlaces(s, t, c);
    } else {
      BeginMoves(s, t, c);
      NothingMoves(s, t, IdleStep(s, t, c));
    }
  }

  lemma StepPlaces(s: State, t: nat, c: Choice)
    requires t < |s.threads| && Inv(s) && ShapeEffect(s, t, Step(s, t, c))
    ensures Places(Step(s, t, c))
  {
    var pc := s.threads[t].pc;
    if pc.Idle? {
      IdlePlaces(s, t, c);
    } else if InTake(pc) {
      TakePlaces(s, t);
    } else if InHand(pc) {
      HandPlaces(s, t);
    } else if InPages(pc) {
      PagePlaces(s, t);
    } else if pc.StartPage? {
      StartPlaces(s, t);
    } else {
      LockPlaces(s, t);
    }
  }

  /** Every step of every thread keeps all of it. */
  lemma StepKeeps(s: State, t: nat, c: Choice)
    requires Inv(s) && t < |s.threads|
    ensures Inv(Step(s, t, c))
  {
    StepShape(s, t, c);
    StepShares(s, t, c);
    StepPages(s, t, c);
    StepPlaces(s, t, c);
  }
}
