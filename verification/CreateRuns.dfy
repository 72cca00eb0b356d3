/** What holds in every run of creates with destroys between them, from no page on. */
module CreateRuns {
  import opened Options
  import opened FreeList
  import opened Lists
  import opened PageSizes
  import opened Entities
  import opened Creates
  import opened CreateInvariant
  import E = EntityAllocator

  datatype Move = Move(thread: nat, choice: Choice)

  ghost predicate Initial(s: State) {
    && Shape(s) && s.pageCount == 0 && s.pageLock.None? && s.shareLock.None? && s.alive == {} && s.handed == []
    && AllIdle(s) && (forall p | 0 <= p < |s.owners| :: s.owners[p] == 0)
    && (forall a | 0 <= a < |s.areas| :: E.IsEmpty(s.areas[a]))
  }

  /** The state after the moves, in any interleaving; a move of no thread does nothing. */
  function Run(s: State, moves: seq<Move>): State {
    if moves == [] then s
    else
      var before := Run(s, moves[..|moves| - 1]);
      var m := moves[|moves| - 1];
      if Shape(before) && m.thread < |before.threads| then Step(before, m.thread, m.choice) else before
  }

  lemma InitialPlaces(s: State)
    requires Initial(s)
    ensures Places(s)
  {
    E.NothingIsHeld(s.areas);
    NothingInFlight(s);
  }

  lemma InitialPages(s: State)
    requires Initial(s)
    ensures Locks(s) && Shares(s) && Paged(s)
  {
    assert s.order[..0] == [];
  }

  lemma InitialInv(s: State)
    requires Initial(s)
    ensures Inv(s)
  {
    InitialPages(s);
    InitialPlaces(s);
  }

  lemma {:induction false} RunInv(s: State, moves: seq<Move>)
    requires Initial(s)
    ensures Inv(Run(s, moves))
  {
    if moves == [] {
      InitialInv(s);
    } else {
      RunInv(s, moves[..|moves| - 1]);
      var before := Run(s, moves[..|moves| - 1]);
      var m := moves[|moves| - 1];
      if m.thread < |before.threads| {
        StepKeeps(before, m.thread, m.choice);
      }
    }
  }

  // --- where an index is ----------------------------------------------------

  /** Alive, in the rest of the page of a share or of its chunk, in the list of
      an area, or in flight at a thread. */
  datatype Place = Alive | PageRest(area: nat, share: nat) | ChunkRest(area: nat, share: nat) | InList(area: nat) | InFlight(thread: nat)

  ghost predicate IsAt(s: State, index: nat, place: Place) {
    match place
    case Alive => index in s.alive
    case PageRest(a, k) => a < |s.areas| && k < |s.areas[a].shares| && InPageRest(s.areas[a].shares[k], index)
    case ChunkRest(a, k) => a < |s.areas| && k < |s.areas[a].shares| && InChunkRest(s.areas[a].shares[k], index)
    case InList(a) => a < |s.areas| && index in Listed(s.areas[a].free)
    case InFlight(t) => t < |s.threads| && index in Flight(s.areas, s.threads[t])
  }

  predicate InPageRest(share: Share, index: nat) { share.next <= index < share.end }

  predicate InChunkRest(share: Share, index: nat) { index in share.chunk[..share.left] }

  predicate HasOwner(s: State, index: nat) { index / PAGE_SIZE < |s.owners| && s.owners[index / PAGE_SIZE] != 0 }

  lemma {:induction false} SomePartHas(parts: seq<multiset<nat>>, x: nat) returns (k: nat)
    requires x in Together(parts)
    ensures k < |parts| && x in parts[k]
  {
    if x in parts[0] {
      k := 0;
    } else {
      k := SomePartHas(parts[1..], x);
      k := k + 1;
    }
  }

  lemma {:induction false} TwoPartsHave(parts: seq<multiset<nat>>, j: nat, k: nat, x: nat)
    requires j < k < |parts| && x in parts[j] && x in parts[k]
    ensures Together(parts)[x] >= 2
  {
    if j == 0 {
      PartIsIn(parts[1..], k - 1);
    } else {
      TwoPartsHave(parts[1..], j - 1, k - 1, x);
    }
  }

  lemma TwoDifferentHave(parts: seq<multiset<nat>>, j: nat, k: nat, x: nat)
    requires j < |parts| && k < |parts| && j != k && x in parts[j] && x in parts[k]
    ensures Together(parts)[x] >= 2
  {
    TwoPartsHave(parts, if j < k then j else k, if j < k then k else j, x);
  }

  lemma ShareHas(share: Share, index: nat)
    ensures HeldByShare(share)[index] == (if InPageRest(share, index) then 1 else 0) + multiset(share.chunk[..share.left])[index]
    ensures InChunkRest(share, index) <==> multiset(share.chunk[..share.left])[index] > 0
  {}

  /** The area of a place, if it is in one. */
  predicate IsInArea(place: Place, a: nat) {
    match place case PageRest(b, _) => a == b case ChunkRest(b, _) => a == b case InList(b) => a == b case _ => false
  }

  lemma PlaceInArea(s: State, index: nat, place: Place, a: nat)
    requires IsAt(s, index, place) && IsInArea(place, a)
    ensures index in HeldByArea(s.areas[a])
  {
    if !place.InList? {
      ShareHas(s.areas[a].shares[place.share], index);
      PartIsIn(SharesOf(s.areas[a].shares), place.share);
    }
  }

  lemma TwoInArea(s: State, index: nat, p: Place, q: Place, a: nat)
    requires IsAt(s, index, p) && IsAt(s, index, q) && p != q && IsInArea(p, a) && IsInArea(q, a)
    ensures HeldByArea(s.areas[a])[index] >= 2
  {
    var area := s.areas[a];
    if p.InList? || q.InList? {
      var k := if p.InList? then q.share else p.share;
      ShareHas(area.shares[k], index);
      PartIsIn(SharesOf(area.shares), k);
      assert HeldByShares(area.shares)[index] >= 1 && multiset(Listed(area.free))[index] >= 1;
    } else if p.share == q.share {
      ShareHas(area.shares[p.share], index);
      PartIsIn(SharesOf(area.shares), p.share);
    } else {
      ShareHas(area.shares[p.share], index);
      ShareHas(area.shares[q.share], index);
      TwoDifferentHave(SharesOf(area.shares), p.share, q.share, index);
    }
  }

  predicate IsHeld(place: Place) { place.PageRest? || place.ChunkRest? || place.InList? }

  lemma PlaceIsHeld(s: State, index: nat, place: Place)
    requires IsAt(s, index, place) && IsHeld(place)
    ensures index in Held(s.areas)
  {
    PlaceInArea(s, index, place, place.area);
    PartIsIn(AreasOf(s.areas), place.area);
  }

  lemma TwoAreHeld(s: State, index: nat, p: Place, q: Place)
    requires IsAt(s, index, p) && IsAt(s, index, q) && p != q && IsHeld(p) && IsHeld(q)
    ensures Held(s.areas)[index] >= 2
  {
    if p.area == q.area {
      TwoInArea(s, index, p, q, p.area);
      PartIsIn(AreasOf(s.areas), p.area);
    } else {
      PlaceInArea(s, index, p, p.area);
      PlaceInArea(s, index, q, q.area);
      TwoDifferentHave(AreasOf(s.areas), p.area, q.area, index);
    }
  }

  lemma HeldHasPlace(s: State, index: nat) returns (place: Place)
    requires index in Held(s.areas)
    ensures IsAt(s, index, place)
  {
    var a := SomePartHas(AreasOf(s.areas), index);
    var area := s.areas[a];
    if index in Listed(area.free) {
      place := InList(a);
    } else {
      var k := SomePartHas(SharesOf(area.shares), index);
      ShareHas(area.shares[k], index);
      place := if InPageRest(area.shares[k], index) then PageRest(a, k) else ChunkRest(a, k);
    }
  }

  /** How often an index is anywhere: once, if its page has an owner. */
  lemma IndexIsOnce(s: State, index: nat)
    requires Inv(s)
    ensures (if index in s.alive then 1 else 0) + Flights(s)[index] + Held(s.areas)[index] == if HasOwner(s, index) then 1 else 0
  {
    PagesHaveEachOnce(s.handed, index);
    assert HasOwner(s, index) <==> index / PAGE_SIZE in s.handed;
    assert (multiset(s.alive) + Flights(s) + Held(s.areas))[index] == Pages(s.handed)[index];
  }

  lemma TwoPlacesAreOne(s: State, index: nat, p: Place, q: Place)
    requires Inv(s) && IsAt(s, index, p) && IsAt(s, index, q)
    ensures p == q
  {
    IndexIsOnce(s, index);
    if IsHeld(p) {
      PlaceIsHeld(s, index, p);
    }
    if IsHeld(q) {
      PlaceIsHeld(s, index, q);
    }
    if p.InFlight? {
      PartIsIn(FlightsOf(s.areas, s.threads), p.thread);
    }
    if q.InFlight? {
      PartIsIn(FlightsOf(s.areas, s.threads), q.thread);
    }
    if p != q && IsHeld(p) && IsHeld(q) {
      TwoAreHeld(s, index, p, q);
    }
    if p.InFlight? && q.InFlight? && p != q {
      TwoDifferentHave(FlightsOf(s.areas, s.threads), p.thread, q.thread, index);
    }
  }

  lemma SomePlace(s: State, index: nat) returns (place: Place)
    requires Inv(s) && HasOwner(s, index)
    ensures IsAt(s, index, place)
  {
    IndexIsOnce(s, index);
    if index in s.alive {
      place := Alive;
    } else if index in Held(s.areas) {
      place := HeldHasPlace(s, index);
    } else {
      var t := SomePartHas(FlightsOf(s.areas, s.threads), index);
      place := InFlight(t);
    }
  }

  lemma PlaceHasOwner(s: State, index: nat, place: Place)
    requires Inv(s) && IsAt(s, index, place)
    ensures HasOwner(s, index)
  {
    IndexIsOnce(s, index);
    if IsHeld(place) {
      PlaceIsHeld(s, index, place);
    } else if place.InFlight? {
      PartIsIn(FlightsOf(s.areas, s.threads), place.thread);
    }
  }

  /** In every interleaving: an index is in exactly one place once its page has
      an owner, and in none before. */
  lemma EveryIndexIsInOnePlace(s: State, moves: seq<Move>, index: nat)
    requires Initial(s)
    ensures HasOwner(Run(s, moves), index) <==> exists place :: IsAt(Run(s, moves), index, place)
    ensures forall p, q | IsAt(Run(s, moves), index, p) && IsAt(Run(s, moves), index, q) :: p == q
  {
    RunInv(s, moves);
    var r := Run(s, moves);
    if HasOwner(r, index) {
      var place := SomePlace(r, index);
    }
    if place :| IsAt(r, index, place) {
      PlaceHasOwner(r, index, place);
    }
    forall p, q | IsAt(r, index, p) && IsAt(r, index, q) ensures p == q {
      TwoPlacesAreOne(r, index, p, q);
    }
  }

  /** Where a thread has the index that it is about to hand out. */
  function PlaceOf(l: Thread, k: nat): Place { if l.pc.HandChunk? then ChunkRest(l.area, k) else PageRest(l.area, k) }

  lemma HasItsIndex(s: State, t: nat)
    requires Shape(s) && Shares(s) && t < |s.threads| && (s.threads[t].pc.HandChunk? || s.threads[t].pc.HandPage?)
    ensures var l := s.threads[t]; IsAt(s, IndexOf(s.areas[l.area].shares[ShareOf(t)], l.pc), PlaceOf(l, ShareOf(t)))
  {
    var l := s.threads[t];
    var share := s.areas[l.area].shares[ShareOf(t)];
    assert ShareOk(share, s.areas[l.area].free, l);
  }

  lemma SharesAreApart(s: State, t: nat, u: nat)
    requires Locks(s) && t < |s.threads| && u < |s.threads| && t != u
    requires UsesShare(s.threads[t].pc) && UsesShare(s.threads[u].pc)
    ensures ShareOf(t) != ShareOf(u)
  {}

  lemma HandsOut(s: State, t: nat)
    requires Shape(s) && t < |s.threads| && (s.threads[t].pc.HandChunk? || s.threads[t].pc.HandPage?)
    ensures var l := s.threads[t];
      Step(s, t, Go).alive == s.alive + {IndexOf(s.areas[l.area].shares[ShareOf(t)], l.pc)}
  {}

  /** What a thread hands out is in its share, so with nobody else, and not
      alive; and no other thread uses the share. */
  lemma HandedOutIsNobodys(s: State, moves: seq<Move>, t: nat)
    requires Initial(s) && t < |Run(s, moves).threads|
    requires var pc := Run(s, moves).threads[t].pc; pc.HandChunk? || pc.HandPage?
    ensures Shape(Run(s, moves))
    ensures var r := Run(s, moves); var l := r.threads[t]; var k := ShareOf(t);
      var index := IndexOf(r.areas[l.area].shares[k], l.pc);
      && IsAt(r, index, PlaceOf(l, k)) && HasOwner(r, index) && index !in r.alive
      && Step(r, t, Go).alive == r.alive + {index}
      && (forall u | 0 <= u < |r.threads| && u != t && UsesShare(r.threads[u].pc) :: ShareOf(u) != k)
  {
    RunInv(s, moves);
    var r := Run(s, moves);
    var l, k := r.threads[t], ShareOf(t);
    var index := IndexOf(r.areas[l.area].shares[k], l.pc);
    HasItsIndex(r, t);
    PlaceHasOwner(r, index, PlaceOf(l, k));
    if index in r.alive {
      TwoPlacesAreOne(r, index, PlaceOf(l, k), Alive);
    }
    HandsOut(r, t);
    forall u | 0 <= u < |r.threads| && u != t && UsesShare(r.threads[u].pc) ensures ShareOf(u) != k {
      SharesAreApart(r, t, u);
    }
  }

  // --- pages ----------------------------------------------------------------

  /** The pages of the row are different, have owners and generations; and a
      page with an owner is in the row, or the thread in makePage is about to
      count it. */
  lemma RowIsThere(s: State, moves: seq<Move>)
    requires Initial(s)
    ensures var r := Run(s, moves);
      && r.pageCount <= |r.order| && Once(r.order[..r.pageCount])
      && (forall k | 0 <= k < r.pageCount :: r.order[k] < |r.owners| && r.owners[r.order[k]] != 0)
      && (forall p | 0 <= p < |r.owners| && r.owners[p] != 0 ::
            p in r.zeroed && (p in r.order[..r.pageCount] || (Installing(r) && r.threads[r.pageLock.value].page == p)))
  {
    RunInv(s, moves);
    var r := Run(s, moves);
    forall i, j | 0 <= i < j < r.pageCount ensures r.order[..r.pageCount][i] != r.order[..r.pageCount][j] {
      assert r.handed[i] != r.handed[j];
    }
    forall k | 0 <= k < r.pageCount ensures r.order[k] < |r.owners| && r.owners[r.order[k]] != 0 {
      assert r.handed[k] == r.order[k];
    }
  }

  /** create gives up only once every page has an owner. */
  lemma GivesUpWithAllTaken(s: State, moves: seq<Move>, t: nat)
    requires Initial(s) && t < |Run(s, moves).threads| && Run(s, moves).threads[t].pc.NoPage?
    ensures E.AllTaken(Run(s, moves).owners)
  {
    RunInv(s, moves);
    var r := Run(s, moves);
    assert PageOk(r.owners, r.order, r.pageCount, r.zeroed, r.areas[r.threads[t].area].cursor, r.threads[t]);
  }

  predicate RowGrows(s: State, s': State) {
    && s.pageCount <= s'.pageCount && s.pageCount <= |s.order| <= |s'.order|
    && forall k | 0 <= k < s.pageCount :: s'.order[k] == s.order[k]
  }

  lemma MakeGrowsRow(s: State, t: nat)
    requires Inv(s) && t < |s.threads| && InPages(s.threads[t].pc)
    ensures RowGrows(s, PageStep(s, t))
  {
    var l := s.threads[t];
    assert PageOk(s.owners, s.order, s.pageCount, s.zeroed, s.areas[l.area].cursor, l);
  }

  lemma OthersKeepRow(s: State, t: nat, c: Choice)
    requires Shape(s) && t < |s.threads| && !InPages(s.threads[t].pc)
    ensures Step(s, t, c).order == s.order && Step(s, t, c).pageCount == s.pageCount
  {}

  lemma StepGrowsRow(s: State, t: nat, c: Choice)
    requires Inv(s) && t < |s.threads|
    ensures RowGrows(s, Step(s, t, c))
  {
    if InPages(s.threads[t].pc) {
      MakeGrowsRow(s, t);
    } else {
      OthersKeepRow(s, t, c);
    }
  }

  lemma RowGrowsOn(a: State, b: State, c: State)
    requires RowGrows(a, b) && RowGrows(b, c)
    ensures RowGrows(a, c)
  {}

  lemma RowStays(s: State, moves: seq<Move>)
    requires Initial(s)
    ensures RowGrows(Run(s, moves), Run(s, moves))
  {
    RunInv(s, moves);
  }

  lemma LastMoveGrowsRow(s: State, moves: seq<Move>)
    requires Initial(s) && moves != []
    ensures RowGrows(Run(s, moves[..|moves| - 1]), Run(s, moves))
  {
    var before, m := Run(s, moves[..|moves| - 1]), moves[|moves| - 1];
    RunInv(s, moves[..|moves| - 1]);
    if m.thread < |before.threads| {
      StepGrowsRow(before, m.thread, m.choice);
    } else {
      RowStays(s, moves[..|moves| - 1]);
    }
  }

  /** A page of the row stays at its place for good. */
  lemma {:induction false} RowOnlyGrows(s: State, moves: seq<Move>, more: seq<Move>)
    requires Initial(s)
    ensures RowGrows(Run(s, moves), Run(s, moves + more))
  {
    if more == [] {
      assert moves + more == moves;
      RowStays(s, moves);
    } else {
      var init, all := more[..|more| - 1], moves + more;
      RowOnlyGrows(s, moves, init);
      LastMoveGrowsRow(s, all);
      assert all[..|all| - 1] == moves + init;
      RowGrowsOn(Run(s, moves), Run(s, moves + init), Run(s, all));
    }
  }

  // --- at rest --------------------------------------------------------------

  /** With no create under way nothing is in flight, and the indices of the row
      that nobody holds are those alive. */
  lemma AtRestOthersAreAlive(s: State, moves: seq<Move>)
    requires Initial(s) && AllIdle(Run(s, moves))
    ensures var r := Run(s, moves); Flights(r) == multiset{} && r.pageCount * PAGE_SIZE == |r.alive| + |Held(r.areas)|
  {
    RunInv(s, moves);
    var r := Run(s, moves);
    NothingInFlight(r);
    SizeOfPages(r.handed);
    assert !Installing(r);
    assert |multiset(r.alive)| == |r.alive|;
  }

  /** alive: the indices of the pages, less what is held. */
  method CountAlive(s: State, ghost start: State, ghost moves: seq<Move>) returns (count: int)
    requires Initial(start) && s == Run(start, moves) && AllIdle(s)
    ensures count == |s.alive|
  {
    count := s.pageCount * PAGE_SIZE;
    for a := 0 to |s.areas|
      invariant count == s.pageCount * PAGE_SIZE - |Together(AreasOf(s.areas)[..a])|
    {
      TogetherUpTo(AreasOf(s.areas), a);
      var held := E.CountHeld(s.areas[a]);
      count := count - held;
    }
    assert AreasOf(s.areas)[..|s.areas|] == AreasOf(s.areas);
    AtRestOthersAreAlive(start, moves);
  }
}
