/**
 What a create comes to that no other thread meets: which index it hands out, and
 that it gives up only with no page left.
 */
module CreateSolo {
  import opened Options
  import opened Iterations
  import opened FreeList
  import opened Lists
  import opened PageSizes
  import opened Entities
  import opened Creates
  import opened CreateInvariant
  import opened CreateRuns
  import E = EntityAllocator

  /** A step of the thread in create. */
  function Alone(t: nat): State -> State {
    (s: State) => if Shape(s) && t < |s.threads| && !s.threads[t].pc.Idle? then Step(s, t, Go) else s
  }

  lemma Steps(s: State, t: nat, y: State, z: State)
    requires Shape(s) && t < |s.threads| && !s.threads[t].pc.Idle? && y == Step(s, t, Go) && Leads(Alone(t), y, z)
    ensures Leads(Alone(t), s, z)
  {
    LeadsFirst(Alone(t), s, z);
  }

  lemma OneStep(s: State, t: nat, y: State)
    requires Shape(s) && t < |s.threads| && !s.threads[t].pc.Idle? && y == Step(s, t, Go)
    ensures Leads(Alone(t), s, y)
  {
    LeadsOnce(Alone(t), s);
  }

  function ShareAt(s: State, t: nat): Share
    requires Shape(s) && t < |s.threads| && s.threads[t].area < |s.areas|
  {
    s.areas[s.threads[t].area].shares[ShareOf(t)]
  }

  // --- the index ------------------------------------------------------------

  /** The thread is out of create. */
  function Over(s: State, t: nat): State
    requires t < |s.threads|
  {
    s.(shareLock := if t < MAX_THREADS then s.shareLock else None, threads := s.threads[t := s.threads[t].(pc := Idle)])
  }

  lemma DoneComes(s: State, t: nat)
    requires Shape(s) && t < |s.threads| && s.threads[t].pc.Done?
    ensures Leads(Alone(t), s, Over(s, t))
  {
    LeadsHere(Alone(t), Over(s, t));
    Steps(s, t, Over(s, t), Over(s, t));
  }

  /** And the index, and what is left of the share. */
  function Handed(s: State, t: nat, index: nat, rest: Share): State
    requires Shape(s) && t < |s.threads| && s.threads[t].area < |s.areas|
  {
    Over(s.(areas := WithShare(s.areas, s.threads[t].area, ShareOf(t), rest), alive := s.alive + {index}), t)
  }

  lemma HandChunkComes(s: State, t: nat)
    requires Shape(s) && t < |s.threads| && s.threads[t].pc.HandChunk? && ShareAt(s, t).left > 0
    ensures var share := ShareAt(s, t);
      Leads(Alone(t), s, Handed(s, t, share.chunk[share.left - 1], share.(left := share.left - 1)))
  {
    var share := ShareAt(s, t);
    var a := WithThread(s.(areas := WithShare(s.areas, s.threads[t].area, ShareOf(t), share.(left := share.left - 1)),
                           alive := s.alive + {share.chunk[share.left - 1]}), t, s.threads[t].(pc := Done));
    assert Step(s, t, Go) == a;
    HandShape(s, t);
    OneStep(s, t, a);
    DoneComes(a, t);
    assert Over(a, t) == Handed(s, t, share.chunk[share.left - 1], share.(left := share.left - 1));
    LeadsOn(Alone(t), s, a, Over(a, t));
  }

  lemma HandPageComes(s: State, t: nat)
    requires Shape(s) && t < |s.threads| && s.threads[t].pc.HandPage? && ShareAt(s, t).next < ShareAt(s, t).end
    ensures var share := ShareAt(s, t); Leads(Alone(t), s, Handed(s, t, share.next, share.(next := share.next + 1)))
  {
    var share := ShareAt(s, t);
    var a := WithThread(s.(areas := WithShare(s.areas, s.threads[t].area, ShareOf(t), share.(next := share.next + 1)),
                           alive := s.alive + {share.next}), t, s.threads[t].(pc := Done));
    assert Step(s, t, Go) == a;
    HandShape(s, t);
    OneStep(s, t, a);
    DoneComes(a, t);
    assert Over(a, t) == Handed(s, t, share.next, share.(next := share.next + 1));
    LeadsOn(Alone(t), s, a, Over(a, t));
  }

  // --- take -----------------------------------------------------------------

  lemma LookComes(s: State, t: nat, z: State)
    requires Shape(s) && t < |s.threads| && s.threads[t].pc.LookLeft?
    requires var area := s.areas[s.threads[t].area];
      Leads(Alone(t), WithThread(s, t, s.threads[t].(pc := if ShareAt(s, t).left != 0 then HandChunk
                                                           else if area.free.left <= 0 then LookPage else FetchSub)), z)
    ensures Leads(Alone(t), s, z)
  {
    var l := s.threads[t];
    assert s.areas[l.area := s.areas[l.area]] == s.areas;
    Steps(s, t, Step(s, t, Go), z);
  }

  /** The chunk that is taken, in the share. */
  function Taken(s: State, t: nat): State
    requires Shape(s) && t < |s.threads| && s.threads[t].area < |s.areas|
    requires 0 < s.areas[s.threads[t].area].free.left <= |s.areas[s.threads[t].area].free.chunks|
  {
    var l := s.threads[t];
    var area := s.areas[l.area];
    var chunk := area.free.chunks[area.free.left - 1];
    WithThread(s.(areas := s.areas[l.area := area.(free := area.free.(left := area.free.left - 1),
                                                   shares := area.shares[ShareOf(t) := ShareWith(ShareAt(s, t), chunk)])]),
               t, l.(pc := HandChunk, before := area.free.left))
  }

  lemma FetchComes(s: State, t: nat)
    requires Shape(s) && t < |s.threads| && s.threads[t].pc.FetchSub?
    requires 0 < s.areas[s.threads[t].area].free.left <= |s.areas[s.threads[t].area].free.chunks|
    ensures Leads(Alone(t), s, Taken(s, t))
  {
    var l := s.threads[t];
    var area := s.areas[l.area];
    var less := area.(free := area.free.(left := area.free.left - 1));
    var a := WithThread(s.(areas := s.areas[l.area := less]), t, l.(pc := ReadChunk, before := area.free.left));
    assert Step(s, t, Go) == a;
    assert Step(a, t, Go) == Taken(s, t);
    LeadsHere(Alone(t), Taken(s, t));
    Steps(a, t, Taken(s, t), Taken(s, t));
    Steps(s, t, a, Taken(s, t));
  }

  // --- makePage -------------------------------------------------------------

  lemma PageAt(s: State, t: nat)
    requires Inv(s) && t < |s.threads| && !s.threads[t].pc.Idle?
    ensures Shape(s) && PageOk(s.owners, s.order, s.pageCount, s.zeroed, s.areas[s.threads[t].area].cursor, s.threads[t])
  {}

  lemma ScanFinds(owners: seq<nat>, from: nat, l: Thread)
    requires Passed(owners, from, l) && owners[l.page] == 0 && from < |owners|
    ensures E.IsNextFree(owners, from, l.page)
  {}

  lemma ScanSteps(s: State, t: nat)
    requires Shape(s) && t < |s.threads| && s.threads[t].pc.Scan?
    requires Passed(s.owners, s.areas[s.threads[t].area].cursor, s.threads[t])
    ensures var l := s.threads[t];
      Step(s, t, Go) == WithThread(s, t, if l.tried >= |s.owners| then l.(pc := NoPage)
                                         else if s.owners[l.page] == 0 then l.(pc := ZeroPage)
                                         else l.(page := NextPage(l.page, |s.owners|), tried := l.tried + 1))
  {}

  /** Where the search of a thread has come to, or what came of it. */
  ghost predicate Searched(s: State, t: nat, m: State)
    requires Shape(s) && t < |s.threads| && s.threads[t].area < |s.areas|
  {
    && |m.threads| == |s.threads|
    && var k := m.threads[t];
       && m == WithThread(s, t, k) && k.area == s.threads[t].area && (k.pc.NoPage? || k.pc.ZeroPage? || k.pc.Scan?)
       && (k.pc.ZeroPage? ==> E.IsNextFree(s.owners, s.areas[k.area].cursor, k.page))
  }

  lemma SearchedOn(s: State, t: nat, m: State, n: State)
    requires Shape(s) && t < |s.threads| && s.threads[t].area < |s.areas| && Searched(s, t, m) && Shape(m)
    requires Searched(m, t, n)
    ensures Searched(s, t, n)
  {
    assert s.threads[t := m.threads[t]][t := n.threads[t]] == s.threads[t := n.threads[t]];
  }

  lemma ScanSearches(s: State, t: nat)
    requires Shape(s) && t < |s.threads| && s.threads[t].pc.Scan?
    requires Passed(s.owners, s.areas[s.threads[t].area].cursor, s.threads[t])
    ensures var l, m := s.threads[t], Step(s, t, Go);
      Searched(s, t, m) && (m.threads[t].pc.Scan? ==> m.threads[t].tried == l.tried + 1 <= |s.owners|)
  {
    var l := s.threads[t];
    ScanSteps(s, t);
    if s.owners[l.page] == 0 {
      ScanFinds(s.owners, s.areas[l.area].cursor, l);
    }
  }

  lemma ScanGoes(s: State, t: nat) returns (m: State)
    requires Inv(s) && t < |s.threads| && s.threads[t].pc.Scan?
    ensures Shape(s) && Leads(Alone(t), s, m) && Inv(m) && Shape(m) && Searched(s, t, m)
    ensures m.threads[t].pc.Scan? ==> m.threads[t].tried == s.threads[t].tried + 1 <= |s.owners|
  {
    PageAt(s, t);
    ScanSearches(s, t);
    StepKeeps(s, t, Go);
    m := Step(s, t, Go);
    OneStep(s, t, m);
  }

  lemma {:induction false} ScanComes(s: State, t: nat) returns (m: State)
    requires Inv(s) && t < |s.threads| && s.threads[t].pc.Scan?
    ensures Shape(s) && Inv(m) && Leads(Alone(t), s, m) && Searched(s, t, m) && !m.threads[t].pc.Scan?
    decreases if s.threads[t].tried <= |s.owners| then |s.owners| - s.threads[t].tried else 0
  {
    var next := ScanGoes(s, t);
    if next.threads[t].pc.Scan? {
      m := ScanComes(next, t);
      SearchedOn(s, t, next, m);
      LeadsOn(Alone(t), s, next, m);
    } else {
      m := next;
    }
  }

  /** Without a page the thread gives up. */
  lemma NoPageComes(s: State, t: nat)
    requires Shape(s) && t < |s.threads| && s.threads[t].pc.NoPage?
    ensures Leads(Alone(t), s, Over(s.(pageLock := None), t))
  {
    var a := Step(s, t, Go);
    DoneComes(a, t);
    assert Over(a, t) == Over(s.(pageLock := None), t);
    Steps(s, t, a, Over(a, t));
  }

  /** The page has its owner and is counted. */
  function Made(s: State, t: nat): State
    requires Shape(s) && t < |s.threads| && s.threads[t].area < |s.areas|
    requires s.threads[t].page < |s.owners| && s.pageCount < |s.order|
  {
    var l := s.threads[t];
    s.(zeroed := s.zeroed + {l.page}, order := s.order[s.pageCount := l.page], pageCount := s.pageCount + 1,
       owners := s.owners[l.page := l.area + 1], handed := s.handed + [l.page], pageLock := None,
       areas := s.areas[l.area := s.areas[l.area].(cursor := NextPage(l.page, |s.owners|))],
       threads := s.threads[t := l.(pc := StartPage, place := s.pageCount)])
  }

  lemma ZeroSteps(s: State, t: nat)
    requires Shape(s) && t < |s.threads| && s.threads[t].pc.ZeroPage? && s.threads[t].page < |s.owners|
    ensures var l := s.threads[t];
      Step(s, t, Go) ==
      WithThread(s.(zeroed := s.zeroed + {l.page},
                    areas := s.areas[l.area := s.areas[l.area].(cursor := NextPage(l.page, |s.owners|))]),
                 t, l.(pc := StoreOrder, place := s.pageCount))
  {}

  lemma ZeroGoes(s: State, t: nat) returns (a: State)
    requires Inv(s) && t < |s.threads| && s.threads[t].pc.ZeroPage?
    ensures a == Step(s, t, Go) && Shape(a) && Shape(s) && s.threads[t].page < |s.owners| && s.pageCount < |s.order|
    ensures var l := s.threads[t];
      a == WithThread(s.(zeroed := s.zeroed + {l.page},
                         areas := s.areas[l.area := s.areas[l.area].(cursor := NextPage(l.page, |s.owners|))]),
                      t, l.(pc := StoreOrder, place := s.pageCount))
  {
    PageAt(s, t);
    ZeroSteps(s, t);
    StepKeeps(s, t, Go);
    a := Step(s, t, Go);
    PageAt(a, t);
  }

  lemma StoreComes(s: State, t: nat, z: State)
    requires Shape(s) && t < |s.threads| && s.threads[t].pc.StoreOrder?
    requires var l := s.threads[t]; l.page < |s.owners| && l.place == s.pageCount < |s.order|
    requires var l := s.threads[t];
      z == s.(order := s.order[s.pageCount := l.page], pageCount := s.pageCount + 1,
              owners := s.owners[l.page := l.area + 1], handed := s.handed + [l.page], pageLock := None,
              threads := s.threads[t := l.(pc := StartPage)])
    ensures Leads(Alone(t), s, z)
  {
    var l := s.threads[t];
    var a := WithThread(s.(order := s.order[l.place := l.page]), t, l.(pc := StoreOwner));
    var b := WithThread(a.(owners := s.owners[l.page := l.area + 1], handed := s.handed + [l.page]), t, l.(pc := StoreCount));
    assert Step(s, t, Go) == a;
    assert Step(a, t, Go) == b;
    StoreCountComes(b, t, z);
    Steps(a, t, b, z);
    Steps(s, t, a, z);
  }

  lemma StoreCountComes(s: State, t: nat, z: State)
    requires Shape(s) && t < |s.threads| && s.threads[t].pc.StoreCount?
    requires z == s.(pageCount := s.threads[t].place + 1, pageLock := None,
                     threads := s.threads[t := s.threads[t].(pc := StartPage)])
    ensures Leads(Alone(t), s, z)
  {
    var a := WithThread(s.(pageCount := s.threads[t].place + 1), t, s.threads[t].(pc := UnlockPage));
    assert Step(s, t, Go) == a;
    assert Step(a, t, Go) == z;
    LeadsHere(Alone(t), z);
    Steps(a, t, z, z);
    Steps(s, t, a, z);
  }

  lemma MakeComes(s: State, t: nat)
    requires Inv(s) && t < |s.threads| && s.threads[t].pc.ZeroPage?
    ensures Shape(s) && s.threads[t].page < |s.owners| && s.pageCount < |s.order| && Leads(Alone(t), s, Made(s, t))
  {
    var a := ZeroGoes(s, t);
    MadeComes(s, t, a);
  }

  lemma MadeComes(s: State, t: nat, a: State)
    requires Shape(s) && t < |s.threads| && s.threads[t].pc.ZeroPage? && s.threads[t].page < |s.owners| && s.pageCount < |s.order|
    requires a == Step(s, t, Go) && Shape(a)
    ensures Leads(Alone(t), s, Made(s, t))
  {
    ZeroSteps(s, t);
    StoreComes(a, t, Made(s, t));
    Steps(s, t, a, Made(s, t));
  }

  /** The first index of the new page. */
  function Started(s: State, t: nat): State
    requires Shape(s) && t < |s.threads| && s.threads[t].area < |s.areas|
  {
    var first := s.threads[t].page * PAGE_SIZE;
    Handed(s, t, first, ShareAt(s, t).(next := first + 1, end := first + PAGE_SIZE))
  }

  lemma StartComes(s: State, t: nat)
    requires Shape(s) && t < |s.threads| && s.threads[t].pc.StartPage?
    ensures Leads(Alone(t), s, Started(s, t))
  {
    var a, share := StartGoes(s, t);
    HandPageComes(a, t);
    LeadsOn(Alone(t), s, a, Handed(a, t, share.next, share.(next := share.next + 1)));
  }

  lemma StartGoes(s: State, t: nat) returns (a: State, share: Share)
    requires Shape(s) && t < |s.threads| && s.threads[t].pc.StartPage?
    ensures Leads(Alone(t), s, a) && Shape(a) && |a.threads| == |s.threads| && a.threads[t].pc.HandPage?
    ensures share == ShareAt(a, t) && share.next < share.end
    ensures Handed(a, t, share.next, share.(next := share.next + 1)) == Started(s, t)
  {
    a := StartSteps(s, t);
    share := ShareAt(a, t);
    StartedIsHanded(s, t, a, share);
  }

  lemma StartedIsHanded(s: State, t: nat, a: State, share: Share)
    requires Shape(s) && t < |s.threads| && s.threads[t].pc.StartPage? && Shape(a) && |a.threads| == |s.threads|
    requires share == ShareAt(s, t).(next := s.threads[t].page * PAGE_SIZE, end := s.threads[t].page * PAGE_SIZE + PAGE_SIZE)
    requires a == WithThread(s.(areas := WithShare(s.areas, s.threads[t].area, ShareOf(t), share)), t, s.threads[t].(pc := HandPage))
    ensures share.next < share.end && Handed(a, t, share.next, share.(next := share.next + 1)) == Started(s, t)
  {
    ShareTwice(s.areas, s.threads[t].area, ShareOf(t), share, share.(next := share.next + 1));
  }

  lemma ShareTwice(areas: seq<Area>, a: nat, k: nat, first: Share, second: Share)
    requires a < |areas| && k < |areas[a].shares|
    ensures WithShare(WithShare(areas, a, k, first), a, k, second) == WithShare(areas, a, k, second)
  {
    assert areas[a].shares[k := first][k := second] == areas[a].shares[k := second];
  }

  lemma StartSteps(s: State, t: nat) returns (a: State)
    requires Shape(s) && t < |s.threads| && s.threads[t].pc.StartPage?
    ensures Leads(Alone(t), s, a) && Shape(a) && |a.threads| == |s.threads|
    ensures a.threads[t].pc.HandPage? && a.threads[t].area == s.threads[t].area
    ensures ShareAt(a, t) == ShareAt(s, t).(next := s.threads[t].page * PAGE_SIZE, end := s.threads[t].page * PAGE_SIZE + PAGE_SIZE)
    ensures a == WithThread(s.(areas := WithShare(s.areas, s.threads[t].area, ShareOf(t), ShareAt(a, t))), t,
                            s.threads[t].(pc := HandPage))
  {
    a := Step(s, t, Go);
    OneStep(s, t, a);
  }

  // --- create ---------------------------------------------------------------

  /** From state r on the thread has come to the look at its share. */
  ghost predicate Looks(r: State, s: State, t: nat, a: nat) {
    && Shape(s) && t < |s.threads| == |r.threads| && s.threads[t].pc.LookLeft? && s.threads[t].area == a
    && (forall u | 0 <= u < |s.threads| && u != t :: s.threads[u].pc.Idle?)
    && s == r.(shareLock := s.shareLock, threads := s.threads) && s.pageLock == None
  }

  predicate SamePages(r: State, z: State) { z.owners == r.owners && z.order == r.order && z.pageCount == r.pageCount }

  /** What there is after a create in the area: an index from the rest of the
      chunk of the share, else from the last chunk of the list, else from the rest
      of the page of the share, else from the next free page, and none without one. */
  ghost predicate IsCreated(r: State, z: State, t: nat, a: nat)
    requires Shape(r) && a < |r.areas|
  {
    var area, k := r.areas[a], ShareOf(t);
    var share, list := area.shares[k], area.free;
    && AllIdle(z) && |z.threads| == |r.threads|
    && if share.left > 0 then
         && SamePages(r, z) && z.alive == r.alive + {share.chunk[share.left - 1]}
         && z.areas == WithShare(r.areas, a, k, share.(left := share.left - 1))
       else if list.left > 0 then
         && list.left <= |list.chunks| && SamePages(r, z)
         && var chunk := list.chunks[list.left - 1];
            && 0 < chunk.count <= |chunk.indices| && z.alive == r.alive + {chunk.indices[chunk.count - 1]}
            && z.areas == r.areas[a := area.(free := list.(left := list.left - 1),
                                             shares := area.shares[k := share.(chunk := chunk.indices, left := chunk.count - 1)])]
       else if share.next < share.end then
         && SamePages(r, z) && z.alive == r.alive + {share.next}
         && z.areas == WithShare(r.areas, a, k, share.(next := share.next + 1))
       else if E.AllTaken(r.owners) then SamePages(r, z) && z.alive == r.alive && z.areas == r.areas
       else
         exists page: nat :: IsFromPage(r, z, t, a, page)
  }

  /** The page has its owner and is the next of the row; the rest of it is the share's. */
  ghost predicate IsFromPage(r: State, z: State, t: nat, a: nat, page: nat)
    requires Shape(r) && a < |r.areas|
  {
    var area, k := r.areas[a], ShareOf(t);
    && E.IsNextFree(r.owners, area.cursor, page) && r.pageCount < |r.order|
    && z.owners == r.owners[page := a + 1] && z.order == r.order[r.pageCount := page] && z.pageCount == r.pageCount + 1
    && z.alive == r.alive + {page * PAGE_SIZE}
    && z.areas == r.areas[a := area.(cursor := NextPage(page, |r.owners|),
                                     shares := area.shares[k := area.shares[k].(next := page * PAGE_SIZE + 1,
                                                                                end := page * PAGE_SIZE + PAGE_SIZE)])]
  }

  ghost predicate Ends(r: State, s: State, t: nat, a: nat)
    requires Shape(r) && a < |r.areas|
  {
    exists z :: Leads(Alone(t), s, z) && IsCreated(r, z, t, a)
  }

  lemma ChunkIsCreated(r: State, s: State, t: nat, a: nat, m: State)
    requires Shape(r) && a < |r.areas| && Looks(r, s, t, a) && r.areas[a].shares[ShareOf(t)].left > 0
    requires m == WithThread(s, t, s.threads[t].(pc := HandChunk))
    ensures var share := r.areas[a].shares[ShareOf(t)];
      IsCreated(r, Handed(m, t, share.chunk[share.left - 1], share.(left := share.left - 1)), t, a)
  {}

  lemma ChunkEnds(r: State, s: State, t: nat, a: nat)
    requires Shape(r) && a < |r.areas| && Looks(r, s, t, a) && r.areas[a].shares[ShareOf(t)].left > 0
    ensures Ends(r, s, t, a)
  {
    var share := r.areas[a].shares[ShareOf(t)];
    var m := WithThread(s, t, s.threads[t].(pc := HandChunk));
    assert ShareAt(m, t) == share;
    HandChunkComes(m, t);
    LookComes(s, t, Handed(m, t, share.chunk[share.left - 1], share.(left := share.left - 1)));
    ChunkIsCreated(r, s, t, a, m);
  }

  lemma ListEnds(r: State, s: State, t: nat, a: nat)
    requires Shape(r) && a < |r.areas| && Looks(r, s, t, a)
    requires r.areas[a].shares[ShareOf(t)].left == 0 && r.areas[a].free.left > 0
    ensures Ends(r, s, t, a)
  {
    assert Closed(r.areas[a].free);
    var m := WithThread(s, t, s.threads[t].(pc := FetchSub));
    FetchComes(m, t);
    var n := Taken(m, t);
    var z := TakenComes(m, t, n);
    LookComes(s, t, z);
    TakenIsCreated(r, s, t, a, m, z);
  }

  /** What a thread with the last chunk of the list comes to. */
  function FromChunk(s: State, t: nat): State
    requires Shape(s) && t < |s.threads| && s.threads[t].area < |s.areas| && s.areas[s.threads[t].area].free.left > 0
  {
    var l := s.threads[t];
    var area := s.areas[l.area];
    var chunk := area.free.chunks[area.free.left - 1];
    Over(s.(areas := s.areas[l.area := area.(free := area.free.(left := area.free.left - 1),
                                             shares := area.shares[ShareOf(t) := ShareAt(s, t).(chunk := chunk.indices,
                                                                                               left := chunk.count - 1)])],
            alive := s.alive + {chunk.indices[chunk.count - 1]},
            threads := s.threads[t := l.(before := area.free.left)]), t)
  }

  lemma TakenComes(m: State, t: nat, n: State) returns (z: State)
    requires Shape(m) && t < |m.threads| && m.threads[t].pc.FetchSub? && m.areas[m.threads[t].area].free.left > 0
    requires n == Taken(m, t) && Leads(Alone(t), m, n)
    ensures z == FromChunk(m, t) && Leads(Alone(t), m, z)
  {
    HandChunkComes(n, t);
    var share := ShareAt(n, t);
    z := Handed(n, t, share.chunk[share.left - 1], share.(left := share.left - 1));
    TakenTwice(m.areas[m.threads[t].area].shares, ShareOf(t), share, share.(left := share.left - 1));
    assert z == FromChunk(m, t);
    LeadsOn(Alone(t), m, n, z);
  }

  lemma TakenIsCreated(r: State, s: State, t: nat, a: nat, m: State, z: State)
    requires Shape(r) && a < |r.areas| && Looks(r, s, t, a)
    requires r.areas[a].shares[ShareOf(t)].left == 0 && r.areas[a].free.left > 0
    requires m == WithThread(s, t, s.threads[t].(pc := FetchSub)) && z == FromChunk(m, t)
    ensures IsCreated(r, z, t, a)
  {
    assert Closed(r.areas[a].free);
  }

  lemma TakenTwice(shares: seq<Share>, k: nat, first: Share, second: Share)
    requires k < |shares|
    ensures shares[k := first][k := second] == shares[k := second]
  {}

  lemma RestIsCreated(r: State, s: State, t: nat, a: nat, m: State)
    requires Shape(r) && a < |r.areas| && Looks(r, s, t, a)
    requires var area := r.areas[a];
      area.shares[ShareOf(t)].left == 0 && area.free.left <= 0 && area.shares[ShareOf(t)].next < area.shares[ShareOf(t)].end
    requires m == WithThread(s, t, s.threads[t].(pc := HandPage))
    ensures var share := r.areas[a].shares[ShareOf(t)];
      IsCreated(r, Handed(m, t, share.next, share.(next := share.next + 1)), t, a)
  {}

  lemma LookPageComes(m: State, t: nat, n: State)
    requires Shape(m) && t < |m.threads| && m.threads[t].pc.LookPage? && ShareAt(m, t).next < ShareAt(m, t).end
    requires n == WithThread(m, t, m.threads[t].(pc := HandPage))
    ensures Leads(Alone(t), m, n)
  {
    OneStep(m, t, n);
  }

  lemma RestComes(m: State, t: nat, n: State, share: Share)
    requires Shape(m) && t < |m.threads| && m.threads[t].pc.LookPage? && share == ShareAt(m, t) && share.next < share.end
    requires n == WithThread(m, t, m.threads[t].(pc := HandPage))
    ensures Leads(Alone(t), m, Handed(n, t, share.next, share.(next := share.next + 1)))
  {
    LookPageComes(m, t, n);
    assert ShareAt(n, t) == share;
    HandPageComes(n, t);
    LeadsOn(Alone(t), m, n, Handed(n, t, share.next, share.(next := share.next + 1)));
  }

  lemma RestEnds(r: State, s: State, t: nat, a: nat)
    requires Shape(r) && a < |r.areas| && Looks(r, s, t, a)
    requires var area := r.areas[a];
      area.shares[ShareOf(t)].left == 0 && area.free.left <= 0 && area.shares[ShareOf(t)].next < area.shares[ShareOf(t)].end
    ensures Ends(r, s, t, a)
  {
    var share := r.areas[a].shares[ShareOf(t)];
    var m := WithThread(s, t, s.threads[t].(pc := LookPage));
    var n := WithThread(s, t, s.threads[t].(pc := HandPage));
    RestComes(m, t, n, share);
    LookComes(s, t, Handed(n, t, share.next, share.(next := share.next + 1)));
    RestIsCreated(r, s, t, a, n);
  }

  /** The look for a page begins. */
  lemma PageSteps(r: State, s: State, t: nat, a: nat) returns (b: State, c: State, m: State)
    requires Shape(r) && a < |r.areas| && Looks(r, s, t, a) && NoneLeft(r, t, a)
    ensures b == Step(s, t, Go) && Shape(b) && c == Step(b, t, Go) && Shape(c) && m == Step(c, t, Go)
    ensures t < |b.threads| == |c.threads| == |s.threads| && !b.threads[t].pc.Idle? && !c.threads[t].pc.Idle?
    ensures m == s.(pageLock := Some(t), threads := s.threads[t := s.threads[t].(pc := Scan, page := r.areas[a].cursor, tried := 0)])
  {
    b := WithThread(s, t, s.threads[t].(pc := LookPage));
    c := WithThread(s, t, s.threads[t].(pc := LockPage));
    m := s.(pageLock := Some(t), threads := s.threads[t := s.threads[t].(pc := Scan, page := r.areas[a].cursor, tried := 0)]);
    assert s.areas[a := s.areas[a]] == s.areas;
  }

  /** Neither the share nor the list of the area has an index. */
  predicate NoneLeft(r: State, t: nat, a: nat)
    requires Shape(r) && a < |r.areas|
  {
    var area := r.areas[a];
    area.shares[ShareOf(t)].left == 0 && area.free.left <= 0 && area.shares[ShareOf(t)].next == area.shares[ShareOf(t)].end
  }

  lemma PageBegins(r: State, s: State, t: nat, a: nat) returns (m: State)
    requires Shape(r) && a < |r.areas| && Looks(r, s, t, a) && NoneLeft(r, t, a) && Inv(s)
    ensures Inv(m) && Leads(Alone(t), s, m)
    ensures m == s.(pageLock := Some(t), threads := s.threads[t := s.threads[t].(pc := Scan, page := r.areas[a].cursor, tried := 0)])
  {
    var b, c;
    b, c, m := PageSteps(r, s, t, a);
    ThreeKeep(s, t, b, c);
    ThreeLead(s, t, b, c);
  }

  lemma ThreeKeep(s: State, t: nat, b: State, c: State)
    requires Inv(s) && t < |s.threads| == |b.threads| == |c.threads|
    requires Shape(s) && b == Step(s, t, Go) && Shape(b) && c == Step(b, t, Go) && Shape(c)
    ensures Inv(Step(c, t, Go))
  {
    StepKeeps(s, t, Go);
    StepKeeps(b, t, Go);
    StepKeeps(c, t, Go);
  }

  lemma ThreeLead(s: State, t: nat, b: State, c: State)
    requires Shape(s) && t < |s.threads| == |b.threads| == |c.threads|
    requires !s.threads[t].pc.Idle? && !b.threads[t].pc.Idle? && !c.threads[t].pc.Idle?
    requires b == Step(s, t, Go) && Shape(b) && c == Step(b, t, Go) && Shape(c)
    ensures Leads(Alone(t), s, Step(c, t, Go))
  {
    var m := Step(c, t, Go);
    LeadsHere(Alone(t), m);
    Steps(c, t, m, m);
    Steps(b, t, c, m);
    Steps(s, t, b, m);
  }

  lemma NoneEnds(r: State, s: State, t: nat, a: nat, m: State)
    requires Shape(r) && a < |r.areas| && Looks(r, s, t, a) && Leads(Alone(t), s, m)
    requires NoneLeft(r, t, a)
    requires Inv(m) && m == s.(pageLock := Some(t), threads := m.threads) && |m.threads| == |s.threads|
    requires m.threads == s.threads[t := m.threads[t]] && m.threads[t].pc.NoPage?
    ensures Ends(r, s, t, a)
  {
    PageAt(m, t);
    NoPageComes(m, t);
    var z := Over(m.(pageLock := None), t);
    LeadsOn(Alone(t), s, m, z);
    assert IsCreated(r, z, t, a);
  }

  lemma MadeIsCreated(r: State, s: State, t: nat, a: nat, m: State)
    requires Shape(r) && a < |r.areas| && Looks(r, s, t, a) && NoneLeft(r, t, a)
    requires Shape(m) && m == s.(pageLock := Some(t), threads := m.threads) && |m.threads| == |s.threads|
    requires m.threads == s.threads[t := m.threads[t]] && m.threads[t].area == a
    requires E.IsNextFree(r.owners, r.areas[a].cursor, m.threads[t].page) && r.pageCount < |r.order|
    ensures Shape(Made(m, t)) && IsCreated(r, Started(Made(m, t), t), t, a)
  {
    assert !E.AllTaken(r.owners);
    MadeIsShaped(m, t);
    assert IsFromPage(r, Started(Made(m, t), t), t, a, m.threads[t].page);
  }

  lemma MadeIsShaped(m: State, t: nat)
    requires Shape(m) && t < |m.threads| && m.threads[t].area < |m.areas|
    requires m.threads[t].page < |m.owners| && m.pageCount < |m.order|
    ensures Shape(Made(m, t)) && Made(m, t).threads[t].pc.StartPage?
  {}

  lemma NewPageEnds(r: State, s: State, t: nat, a: nat, m: State)
    requires Shape(r) && a < |r.areas| && Looks(r, s, t, a) && Leads(Alone(t), s, m) && NoneLeft(r, t, a)
    requires Inv(m) && m == s.(pageLock := Some(t), threads := m.threads) && |m.threads| == |s.threads|
    requires m.threads == s.threads[t := m.threads[t]] && m.threads[t].pc.ZeroPage? && m.threads[t].area == a
    requires E.IsNextFree(r.owners, r.areas[a].cursor, m.threads[t].page)
    ensures Ends(r, s, t, a)
  {
    MakeComes(m, t);
    MadeIsShaped(m, t);
    StartComes(Made(m, t), t);
    var z := Started(Made(m, t), t);
    LeadsOn(Alone(t), m, Made(m, t), z);
    LeadsOn(Alone(t), s, m, z);
    MadeIsCreated(r, s, t, a, m);
  }

  lemma SearchComes(r: State, s: State, t: nat, a: nat) returns (m: State)
    requires Shape(r) && a < |r.areas| && Looks(r, s, t, a) && Inv(s) && NoneLeft(r, t, a)
    ensures Leads(Alone(t), s, m) && Inv(m) && m == s.(pageLock := Some(t), threads := m.threads) && |m.threads| == |s.threads|
    ensures m.threads == s.threads[t := m.threads[t]] && m.threads[t].area == a
    ensures m.threads[t].pc.NoPage? || (m.threads[t].pc.ZeroPage? && E.IsNextFree(r.owners, r.areas[a].cursor, m.threads[t].page))
  {
    var b := PageBegins(r, s, t, a);
    m := ScanComes(b, t);
    LeadsOn(Alone(t), s, b, m);
  }

  lemma PageEnds(r: State, s: State, t: nat, a: nat)
    requires Shape(r) && a < |r.areas| && Looks(r, s, t, a) && Inv(s)
    requires NoneLeft(r, t, a)
    ensures Ends(r, s, t, a)
  {
    var m := SearchComes(r, s, t, a);
    if m.threads[t].pc.NoPage? {
      NoneEnds(r, s, t, a, m);
    } else {
      NewPageEnds(r, s, t, a, m);
    }
  }

  lemma LooksEnds(r: State, s: State, t: nat, a: nat)
    requires Shape(r) && a < |r.areas| && Looks(r, s, t, a) && Inv(s)
    ensures Ends(r, s, t, a)
  {
    var area := r.areas[a];
    var share := area.shares[ShareOf(t)];
    if share.left > 0 {
      ChunkEnds(r, s, t, a);
    } else if area.free.left > 0 {
      ListEnds(r, s, t, a);
    } else if share.next < share.end {
      RestEnds(r, s, t, a);
    } else {
      PageEnds(r, s, t, a);
    }
  }

  // --- the lock of the threads without a share ------------------------------

  /** Whoever has the lock is one of them, between its first step and its last. */
  predicate LockHeld(s: State) {
    && (s.shareLock.Some? ==>
          s.shareLock.value < |s.threads| && MAX_THREADS <= s.shareLock.value && UsesShare(s.threads[s.shareLock.value].pc))
    && (forall t | 0 <= t < |s.threads| && s.threads[t].pc.LockShared? :: MAX_THREADS <= t)
  }

  lemma TakeLocks(s: State, t: nat)
    requires Shape(s) && t < |s.threads| && InTake(s.threads[t].pc) && LockHeld(s)
    ensures LockHeld(TakeInArea(s, t))
  {}

  lemma HandLocks(s: State, t: nat)
    requires Shape(s) && t < |s.threads| && InHand(s.threads[t].pc) && LockHeld(s)
    ensures LockHeld(HandStep(s, t))
  {}

  lemma PageLocks(s: State, t: nat)
    requires Shape(s) && t < |s.threads| && InPages(s.threads[t].pc) && LockHeld(s)
    ensures LockHeld(PageStep(s, t))
  {}

  lemma PageLockLocks(s: State, t: nat)
    requires Shape(s) && t < |s.threads| && (s.threads[t].pc.LockPage? || s.threads[t].pc.StartPage?) && LockHeld(s)
    ensures LockHeld(ShareStep(s, t))
  {}

  lemma ShareLocks(s: State, t: nat)
    requires Shape(s) && Locks(s) && t < |s.threads| && (s.threads[t].pc.LockShared? || s.threads[t].pc.Done?) && LockHeld(s)
    ensures LockHeld(ShareStep(s, t))
  {}

  lemma IdleLocks(s: State, t: nat, c: Choice)
    requires Shape(s) && t < |s.threads| && s.threads[t].pc.Idle? && LockHeld(s)
    ensures LockHeld(IdleStep(s, t, c))
  {}

  lemma StepLocks(s: State, t: nat, c: Choice)
    requires Shape(s) && Locks(s) && t < |s.threads| && LockHeld(s)
    ensures LockHeld(Step(s, t, c))
  {
    var pc := s.threads[t].pc;
    if pc.Idle? {
      IdleLocks(s, t, c);
    } else if InTake(pc) {
      TakeLocks(s, t);
    } else if InHand(pc) {
      HandLocks(s, t);
    } else if InPages(pc) {
      PageLocks(s, t);
    } else if pc.LockPage? || pc.StartPage? {
      PageLockLocks(s, t);
    } else {
      ShareLocks(s, t);
    }
  }

  lemma {:induction false} RunLocks(s: State, moves: seq<Move>)
    requires Initial(s)
    ensures LockHeld(Run(s, moves))
  {
    if moves != [] {
      var init, last := moves[..|moves| - 1], moves[|moves| - 1];
      RunInv(s, init);
      RunLocks(s, init);
      if last.thread < |Run(s, init).threads| {
        StepLocks(Run(s, init), last.thread, last.choice);
      }
    }
  }

  lemma CreateSteps(r: State, t: nat, a: nat) returns (b: State, s: State)
    requires Shape(r) && Locks(r) && LockHeld(r) && AllIdle(r) && t < |r.threads| && a < |r.areas|
    ensures b == Step(r, t, Create(a)) && Shape(b) && !b.threads[t].pc.Idle?
    ensures s == (if t < MAX_THREADS then b else Step(b, t, Go)) && Looks(r, s, t, a)
  {
    assert r.pageLock.None? && r.shareLock.None?;
    var l := r.threads[t].(pc := if t < MAX_THREADS then LookLeft else LockShared, area := a);
    b := WithThread(r, t, l);
    s := if t < MAX_THREADS then b else WithThread(b.(shareLock := Some(t)), t, l.(pc := LookLeft));
  }

  lemma CreateBegins(r: State, t: nat, a: nat) returns (s: State)
    requires Inv(r) && LockHeld(r) && AllIdle(r) && t < |r.threads| && a < |r.areas|
    ensures Shape(r) && Looks(r, s, t, a) && Inv(s)
    ensures s == Step(r, t, Create(a)) ||
            (!Step(r, t, Create(a)).threads[t].pc.Idle? && Shape(Step(r, t, Create(a))) && s == Step(Step(r, t, Create(a)), t, Go))
  {
    var b;
    b, s := CreateSteps(r, t, a);
    StepKeeps(r, t, Create(a));
    if MAX_THREADS <= t {
      StepKeeps(b, t, Go);
    }
  }

  lemma RunBegins(s: State, moves: seq<Move>, t: nat, c: Choice)
    requires Shape(Run(s, moves)) && t < |Run(s, moves).threads|
    ensures Run(s, moves + [Move(t, c)]) == Step(Run(s, moves), t, c)
  {
    var begun := moves + [Move(t, c)];
    assert begun[..|begun| - 1] == moves;
  }

  /** create, begun when no thread is in it and met by none, ends: with exactly one
      index more that is alive, that of IsCreated, or with none if the share and
      the list of the area are empty and every page has an owner. */
  lemma CreateEnds(s: State, moves: seq<Move>, t: nat, a: nat)
    requires Initial(s) && AllIdle(Run(s, moves)) && t < |Run(s, moves).threads| && a < |Run(s, moves).areas|
    ensures Shape(Run(s, moves)) && Ends(Run(s, moves), Run(s, moves + [Move(t, Create(a))]), t, a)
  {
    var r := Run(s, moves);
    RunInv(s, moves);
    RunLocks(s, moves);
    RunBegins(s, moves, t, Create(a));
    var b := CreateBegins(r, t, a);
    LooksEnds(r, b, t, a);
    var z :| Leads(Alone(t), b, z) && IsCreated(r, z, t, a);
    var begun := Step(r, t, Create(a));
    if b != begun {
      Steps(begun, t, b, z);
    }
  }

  // --- next to others -------------------------------------------------------

  /** What came of the last create of a thread so far: an index, or that it found
      no page. */
  datatype Story = Story(index: Option<nat>, gaveUp: bool)

  /** The index a thread hands out in its next step. */
  function NextIndex(s: State, t: nat): nat
    requires Shape(s) && t < |s.threads| && s.threads[t].area < |s.areas|
  {
    IndexOf(ShareAt(s, t), s.threads[t].pc)
  }

  function Told(story: Story, s: State, t: nat): Story
    requires Shape(s) && t < |s.threads|
  {
    var l := s.threads[t];
    if l.pc.Idle? then Story(None, false)
    else if l.pc.HandChunk? || l.pc.HandPage? then story.(index := Some(NextIndex(s, t)))
    else if l.pc.NoPage? then story.(gaveUp := true)
    else story
  }

  ghost function StoryOf(s: State, moves: seq<Move>, t: nat): Story {
    if moves == [] then Story(None, false)
    else
      var init, last := moves[..|moves| - 1], moves[|moves| - 1];
      var before := Run(s, init);
      if Shape(before) && t < |before.threads| && last.thread == t && IsCreate(before, t, last.choice)
      then Told(StoryOf(s, init, t), before, t)
      else StoryOf(s, init, t)
  }

  /** A step of a create, or the first one. */
  predicate IsCreate(s: State, t: nat, c: Choice)
    requires t < |s.threads|
  {
    !s.threads[t].pc.Idle? || (c.Create? && c.area < |s.areas|)
  }

  /** A create that is done has either come of it, and no other one. */
  predicate Fits(story: Story, pc: Pc) {
    && (pc.Done? ==> story.index.Some? != story.gaveUp)
    && (!pc.Idle? && !pc.Done? ==> story == Story(None, false))
  }

  lemma HandTells(s: State, t: nat, story: Story)
    requires Shape(s) && t < |s.threads| && InHand(s.threads[t].pc) && Fits(story, s.threads[t].pc)
    ensures |HandStep(s, t).threads| == |s.threads| && Fits(Told(story, s, t), HandStep(s, t).threads[t].pc)
  {}

  lemma PageTells(s: State, t: nat, story: Story)
    requires Shape(s) && t < |s.threads| && InPages(s.threads[t].pc) && Fits(story, s.threads[t].pc)
    ensures |PageStep(s, t).threads| == |s.threads| && Fits(Told(story, s, t), PageStep(s, t).threads[t].pc)
  {}

  lemma TakeTells(s: State, t: nat, story: Story)
    requires Shape(s) && t < |s.threads| && InTake(s.threads[t].pc) && Fits(story, s.threads[t].pc)
    ensures |TakeInArea(s, t).threads| == |s.threads| && Fits(Told(story, s, t), TakeInArea(s, t).threads[t].pc)
  {}

  lemma StepTells(s: State, t: nat, c: Choice, story: Story)
    requires Shape(s) && t < |s.threads| && Fits(story, s.threads[t].pc)
    ensures |Step(s, t, c).threads| == |s.threads|
    ensures Fits(if IsCreate(s, t, c) then Told(story, s, t) else story, Step(s, t, c).threads[t].pc)
  {
    var pc := s.threads[t].pc;
    if InHand(pc) {
      HandTells(s, t, story);
    } else if InPages(pc) {
      PageTells(s, t, story);
    } else if InTake(pc) {
      TakeTells(s, t, story);
    }
  }

  lemma OtherStays(s: State, u: nat, c: Choice, t: nat)
    requires Inv(s) && u < |s.threads| && t < |s.threads| && u != t
    ensures |Step(s, u, c).threads| == |s.threads| && Step(s, u, c).threads[t] == s.threads[t]
  {
    StepShape(s, u, c);
  }

  lemma {:induction false} RunTells(s: State, moves: seq<Move>, t: nat)
    requires Initial(s) && t < |s.threads|
    ensures |Run(s, moves).threads| == |s.threads| && Fits(StoryOf(s, moves, t), Run(s, moves).threads[t].pc)
  {
    if moves != [] {
      var init, last := moves[..|moves| - 1], moves[|moves| - 1];
      RunInv(s, init);
      RunTells(s, init, t);
      if last.thread == t {
        StepTells(Run(s, init), t, last.choice, StoryOf(s, init, t));
      } else if last.thread < |s.threads| {
        OtherStays(Run(s, init), last.thread, last.choice, t);
      }
    }
  }

  /** In every interleaving a create that is done has handed out an index, or, and
      only else, found that every page has an owner. */
  lemma EveryCreateIsAccounted(s: State, moves: seq<Move>, t: nat)
    requires Initial(s) && t < |s.threads| && t < |Run(s, moves).threads| && Run(s, moves).threads[t].pc.Done?
    ensures StoryOf(s, moves, t).index.Some? || StoryOf(s, moves, t).gaveUp
    ensures StoryOf(s, moves, t).index.None? || !StoryOf(s, moves, t).gaveUp
  {
    RunTells(s, moves, t);
  }
}
