/**
 create of entities on any number of threads at once (EntityAllocator and
 FreeList of entity.hpp): one step of a thread per access to an atomic or under
 a lock. destroy comes between, while no thread creates.
 */
module Creates {
  import opened Options
  import opened FreeList
  import opened Lists
  import opened PageSizes
  import opened Entities

  /** So many threads have a share of their own, the others use one together. */
  const MAX_THREADS: nat := 128

  /** What a thread is about to do. */
  datatype Pc =
    | Idle
    // withShare
    | LockShared | Done
    // take
    | LookLeft | FetchSub | ReadChunk
    // the index
    | HandChunk | LookPage | HandPage
    // makePage
    | LockPage | Scan | ZeroPage | StoreOrder | StoreOwner | StoreCount | UnlockPage | NoPage
    // startPage
    | StartPage

  /** before: what fetch_sub found; page, tried, place: of makePage. */
  datatype Thread = Thread(pc: Pc, area: nat, before: int, page: nat, tried: nat, place: nat)

  /** order: memory, of which pageCount are there; zeroed: pages whose generations
      were written. alive and handed are not in the program: the indices that
      were handed out and not given back, and the pages in the order they got
      their owner. */
  datatype State = State(
    owners: seq<nat>, order: seq<nat>, pageCount: nat, zeroed: set<nat>, areas: seq<Area>,
    pageLock: Option<nat>, shareLock: Option<nat>, threads: seq<Thread>, alive: set<nat>, handed: seq<nat>)

  /** What an idle thread begins: a create, or a destroy of entities of an area,
      after which the free list of the area is as give leaves it. */
  datatype Choice = Go | Create(area: nat) | Give(from: nat, indices: seq<nat>, list: List)

  function ShareOf(t: nat): nat { if t < MAX_THREADS then t else MAX_THREADS }

  predicate Shape(s: State) {
    && |s.order| == |s.owners|
    && (forall a | 0 <= a < |s.areas| :: |s.areas[a].shares| == MAX_THREADS + 1 && s.areas[a].cursor < |s.owners|)
    && (forall t | 0 <= t < |s.threads| && !s.threads[t].pc.Idle? :: s.threads[t].area < |s.areas|)
  }

  function WithThread(s: State, t: nat, l: Thread): State
    requires t < |s.threads|
  {
    s.(threads := s.threads[t := l])
  }

  function WithShare(areas: seq<Area>, a: nat, k: nat, share: Share): seq<Area>
    requires a < |areas| && k < |areas[a].shares|
  {
    areas[a := areas[a].(shares := areas[a].shares[k := share])]
  }

  function WithFree(areas: seq<Area>, a: nat, list: List): seq<Area>
    requires a < |areas|
  {
    areas[a := areas[a].(free := list)]
  }

  predicate InTake(pc: Pc) { pc.LookLeft? || pc.FetchSub? || pc.ReadChunk? }

  /** take, and the look at what the share has. */
  function TakeStep(area: Area, k: nat, l: Thread): (Area, Thread)
    requires k < |area.shares|
  {
    var share := area.shares[k];
    match l.pc
    case LookLeft =>
      (area, l.(pc := if share.left != 0 then HandChunk else if area.free.left <= 0 then LookPage else FetchSub))
    case FetchSub =>
      (area.(free := area.free.(left := area.free.left - 1)),
       l.(pc := if area.free.left <= 0 then LookPage else ReadChunk, before := area.free.left))
    case ReadChunk =>
      if 0 < l.before <= |area.free.chunks| then
        var chunk := area.free.chunks[l.before - 1];
        (area.(shares := area.shares[k := ShareWith(share, chunk)]), l.(pc := HandChunk))
      else (area, l)
    case _ => (area, l)
  }

  function ShareWith(share: Share, chunk: Chunk): Share {
    if chunk.count <= |chunk.indices| then share.(chunk := chunk.indices, left := chunk.count) else share
  }

  predicate InHand(pc: Pc) { pc.HandChunk? || pc.LookPage? || pc.HandPage? }

  /** The index a thread hands out, from its chunk or its page. */
  function IndexOf(share: Share, pc: Pc): nat {
    if pc.HandChunk? && share.left > 0 then share.chunk[share.left - 1] else share.next
  }

  /** And what it leaves of the share. */
  function RestOf(share: Share, pc: Pc): Share {
    if pc.HandChunk? && share.left > 0 then share.(left := share.left - 1)
    else if pc.HandPage? && share.next < share.end then share.(next := share.next + 1)
    else share
  }

  function HandStep(s: State, t: nat): State
    requires Shape(s) && t < |s.threads| && !s.threads[t].pc.Idle?
  {
    var l := s.threads[t];
    var k := ShareOf(t);
    var share := s.areas[l.area].shares[k];
    if l.pc.LookPage? then WithThread(s, t, l.(pc := if share.next == share.end then LockPage else HandPage))
    else WithThread(s.(areas := WithShare(s.areas, l.area, k, RestOf(share, l.pc)), alive := s.alive + {IndexOf(share, l.pc)}),
                    t, l.(pc := Done))
  }

  predicate InPages(pc: Pc) {
    pc.Scan? || pc.ZeroPage? || pc.StoreOrder? || pc.StoreOwner? || pc.StoreCount? || pc.UnlockPage? || pc.NoPage?
  }

  /** makePage, under its lock. */
  function PageStep(s: State, t: nat): State
    requires Shape(s) && t < |s.threads| && !s.threads[t].pc.Idle?
  {
    var l, limit := s.threads[t], |s.owners|;
    match l.pc
    case Scan =>
      WithThread(s, t, if l.tried >= limit || l.page >= limit then l.(pc := NoPage)
                       else if s.owners[l.page] == 0 then l.(pc := ZeroPage)
                       else l.(page := NextPage(l.page, limit), tried := l.tried + 1))
    case ZeroPage =>
      if l.page >= limit then s
      else WithThread(s.(zeroed := s.zeroed + {l.page},
                         areas := s.areas[l.area := s.areas[l.area].(cursor := NextPage(l.page, limit))]),
                      t, l.(pc := StoreOrder, place := s.pageCount))
    case StoreOrder =>
      if l.place >= |s.order| then s
      else WithThread(s.(order := s.order[l.place := l.page]), t, l.(pc := StoreOwner))
    case StoreOwner =>
      if l.page >= limit then s
      else WithThread(s.(owners := s.owners[l.page := l.area + 1], handed := s.handed + [l.page]), t, l.(pc := StoreCount))
    case StoreCount => WithThread(s.(pageCount := l.place + 1), t, l.(pc := UnlockPage))
    case UnlockPage => WithThread(s.(pageLock := None), t, l.(pc := StartPage))
    case NoPage => WithThread(s.(pageLock := None), t, l.(pc := Done))
    case _ => s
  }

  /** The locks, and the new page in the share. */
  function ShareStep(s: State, t: nat): State
    requires Shape(s) && t < |s.threads| && !s.threads[t].pc.Idle?
  {
    var l := s.threads[t];
    match l.pc
    case LockShared =>
      if s.shareLock.Some? then s else WithThread(s.(shareLock := Some(t)), t, l.(pc := LookLeft))
    case LockPage =>
      if s.pageLock.Some? then s
      else WithThread(s.(pageLock := Some(t)), t, l.(pc := Scan, page := s.areas[l.area].cursor, tried := 0))
    case StartPage =>
      var share := s.areas[l.area].shares[ShareOf(t)];
      var first := l.page * PAGE_SIZE;
      WithThread(s.(areas := WithShare(s.areas, l.area, ShareOf(t), share.(next := first, end := first + PAGE_SIZE))),
                 t, l.(pc := HandPage))
    case Done => WithThread(if t < MAX_THREADS then s else s.(shareLock := None), t, l.(pc := Idle))
    case _ => s
  }

  predicate AllIdle(s: State) { forall t | 0 <= t < |s.threads| :: s.threads[t].pc.Idle? }

  predicate IsOfArea(s: State, index: nat, a: nat) {
    index / PAGE_SIZE < |s.owners| && s.owners[index / PAGE_SIZE] == a + 1
  }

  /** Entities of an area that are alive and go, and the list give makes of it. */
  predicate CanGive(s: State, c: Choice) {
    && c.Give? && AllIdle(s) && c.from < |s.areas|
    && Once(c.indices)
    && (forall k | 0 <= k < |c.indices| :: c.indices[k] in s.alive && IsOfArea(s, c.indices[k], c.from))
    && Listed(c.list) == Listed(s.areas[c.from].free) + c.indices
  }

  function IdleStep(s: State, t: nat, c: Choice): State
    requires Shape(s) && t < |s.threads|
  {
    if c.Create? && c.area < |s.areas| then
      WithThread(s, t, s.threads[t].(pc := if t < MAX_THREADS then LookLeft else LockShared, area := c.area))
    else if CanGive(s, c) then
      s.(areas := WithFree(s.areas, c.from, c.list), alive := s.alive - (set i | i in c.indices))
    else s
  }

  /** What take does in the area of the thread. */
  function TakeInArea(s: State, t: nat): State
    requires Shape(s) && t < |s.threads| && !s.threads[t].pc.Idle?
  {
    var l := s.threads[t];
    var (area, after) := TakeStep(s.areas[l.area], ShareOf(t), l);
    WithThread(s.(areas := s.areas[l.area := area]), t, after)
  }

  /** One step of thread t. */
  function Step(s: State, t: nat, c: Choice): State
    requires Shape(s) && t < |s.threads|
  {
    var pc := s.threads[t].pc;
    if pc.Idle? then IdleStep(s, t, c)
    else if InTake(pc) then TakeInArea(s, t)
    else if InHand(pc) then HandStep(s, t)
    else if InPages(pc) then PageStep(s, t)
    else ShareStep(s, t)
  }
}
