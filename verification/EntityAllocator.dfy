/**
 The allocator of entities (EntityAllocator of entity.hpp): create of a thread,
 which has a share of its own in every area, and destroy with nothing next to
 it, one call after the other; CreateRuns has the creates of several threads.
 */
module EntityAllocator {
  import opened Options
  import opened Counting
  import opened FreeList
  import opened Lists
  import opened PageSizes
  import opened Entities
  import Ranks

  /** Every index of the pages is alive, on its way back, or held. */
  predicate Partition(alive: set<nat>, limbo: multiset<nat>, areas: seq<Area>, order: seq<nat>) {
    multiset(alive) + limbo + Held(areas) == Pages(order)
  }

  /** Owners of pages: the area plus one, and 0 for a page nobody has. */
  predicate Owned(owners: seq<nat>, order: seq<nat>, areas: nat) {
    && Once(order)
    && (forall i | 0 <= i < |order| :: order[i] < |owners| && owners[order[i]] != 0)
    && (forall p | 0 <= p < |owners| && owners[p] != 0 :: p in order && owners[p] <= areas)
  }

  /** What was held goes to somebody: nobody had it. */
  lemma HandedOut(alive: set<nat>, limbo: multiset<nat>, held: multiset<nat>, held': multiset<nat>, order: seq<nat>, index: nat)
    requires multiset(alive) + limbo + held == Pages(order) && Once(order) && held == held' + multiset{index}
    ensures index !in alive && index / PAGE_SIZE in order
    ensures multiset(alive + {index}) + limbo + held' == Pages(order)
  {
    PagesHaveEachOnce(order, index);
    assert Pages(order)[index] >= held[index] >= 1;
    assert multiset(alive)[index] == 0;
    assert multiset(alive + {index}) == multiset(alive) + multiset{index};
    assert multiset(alive) + limbo + (held' + multiset{index}) == (multiset(alive) + multiset{index}) + limbo + held';
  }

  lemma AreaKeeps(areas: seq<Area>, a: nat, area: Area)
    requires a < |areas| && HeldByArea(area) == HeldByArea(areas[a])
    ensures Held(areas[a := area]) == Held(areas)
  {
    AreaChanges(areas, a, area);
    Cancel(Held(areas[a := area]), Held(areas), HeldByArea(area));
  }

  /** A share that takes from the list of its area. */
  lemma ShareTakes(area: Area, t: nat, share: Share, free: List, moved: multiset<nat>)
    requires t < |area.shares|
    requires HeldByShare(share) == HeldByShare(area.shares[t]) + moved
    requires multiset(Listed(area.free)) == multiset(Listed(free)) + moved
    ensures HeldByArea(area.(shares := area.shares[t := share], free := free)) == HeldByArea(area)
  {
    ShareChanges(area.shares, t, share);
    CancelPart(HeldByShares(area.shares), HeldByShares(area.shares[t := share]), HeldByShare(area.shares[t]),
               HeldByShare(share), moved);
  }

  /** A chunk, or none, goes from the list of an area to a share. */
  lemma ChunkMoves(alive: set<nat>, limbo: multiset<nat>, areas: seq<Area>, order: seq<nat>,
                   a: nat, t: nat, share: Share, free: List, moved: seq<nat>)
    requires Partition(alive, limbo, areas, order) && a < |areas| && t < |areas[a].shares|
    requires share.next == areas[a].shares[t].next && share.end == areas[a].shares[t].end
    requires share.chunk[..share.left] == areas[a].shares[t].chunk[..areas[a].shares[t].left] + moved
    requires Listed(areas[a].free) == Listed(free) + moved
    ensures Partition(alive, limbo, areas[a := areas[a].(shares := areas[a].shares[t := share], free := free)], order)
  {
    var area := areas[a].(shares := areas[a].shares[t := share], free := free);
    ShareTakes(areas[a], t, share, free, multiset(moved));
    AreaKeeps(areas, a, area);
  }

  /** A share that gets more. */
  lemma ShareGets(areas: seq<Area>, a: nat, t: nat, share: Share, more: multiset<nat>)
    requires a < |areas| && t < |areas[a].shares|
    requires HeldByShare(share) == HeldByShare(areas[a].shares[t]) + more
    ensures Held(areas[a := areas[a].(shares := areas[a].shares[t := share])]) == Held(areas) + more
  {
    var old_ := areas[a];
    var area := old_.(shares := old_.shares[t := share]);
    ShareChanges(old_.shares, t, share);
    CancelPart(HeldByShares(old_.shares), HeldByShares(area.shares), HeldByShare(old_.shares[t]), HeldByShare(share), more);
    HeldMore(HeldByShares(old_.shares), more, multiset(Listed(area.free)));
    AreaChanges(areas, a, area);
    CancelPart(Held(areas), Held(areas[a := area]), HeldByArea(old_), HeldByArea(area), more);
  }

  /** A share that hands out an index. */
  lemma ShareGives(areas: seq<Area>, a: nat, t: nat, share: Share, index: nat)
    requires a < |areas| && t < |areas[a].shares|
    requires HeldByShare(areas[a].shares[t]) == HeldByShare(share) + multiset{index}
    ensures Held(areas) == Held(areas[a := areas[a].(shares := areas[a].shares[t := share])]) + multiset{index}
  {
    var less := areas[a := areas[a].(shares := areas[a].shares[t := share])];
    assert less[a].shares[t := areas[a].shares[t]] == areas[a].shares;
    ShareGets(less, a, t, areas[a].shares[t], multiset{index});
    assert less[a := less[a].(shares := less[a].shares[t := areas[a].shares[t]])] == areas;
  }

  lemma HeldMore(shares: multiset<nat>, more: multiset<nat>, listed: multiset<nat>)
    ensures shares + more + listed == shares + listed + more
  {}

  /** What is handed out was nobody's. */
  lemma IndexGoes(alive: set<nat>, limbo: multiset<nat>, areas: seq<Area>, order: seq<nat>,
                  a: nat, t: nat, rest: Share, index: nat)
    requires Partition(alive, limbo, areas, order) && Once(order)
    requires a < |areas| && t < |areas[a].shares|
    requires HeldByShare(areas[a].shares[t]) == HeldByShare(rest) + multiset{index}
    ensures index !in alive && index / PAGE_SIZE in order
    ensures Partition(alive + {index}, limbo, areas[a := areas[a].(shares := areas[a].shares[t := rest])], order)
  {
    var areas' := areas[a := areas[a].(shares := areas[a].shares[t := rest])];
    ShareGives(areas, a, t, rest, index);
    HandedOut(alive, limbo, Held(areas), Held(areas'), order, index);
  }

  /** Indices on their way back get into the list of their area. */
  lemma IndicesReturn(alive: set<nat>, limbo: multiset<nat>, areas: seq<Area>,
                      order: seq<nat>, a: nat, list: List, indices: multiset<nat>)
    requires Partition(alive, limbo, areas, order) && a < |areas| && indices <= limbo
    requires multiset(Listed(list)) == multiset(Listed(areas[a].free)) + indices
    ensures Partition(alive, limbo - indices, areas[a := areas[a].(free := list)], order)
  {
    var areas' := areas[a := areas[a].(free := list)];
    ListGrows(areas, a, list, indices);
    LimboToList(multiset(alive), limbo, Held(areas), indices, Pages(order));
  }

  /** A page nobody had is the rest of the page of a thread. */
  lemma PageIsMore(alive: set<nat>, limbo: multiset<nat>, areas: seq<Area>, order: seq<nat>, a: nat, t: nat, page: nat,
                   cursor: nat)
    requires Partition(alive, limbo, areas, order) && a < |areas| && t < |areas[a].shares|
    requires areas[a].shares[t].next == areas[a].shares[t].end
    ensures var share := areas[a].shares[t].(next := page * PAGE_SIZE, end := page * PAGE_SIZE + PAGE_SIZE);
      Partition(alive, limbo, areas[a := areas[a].(cursor := cursor, shares := areas[a].shares[t := share])], order + [page])
  {
    var share := areas[a].shares[t].(next := page * PAGE_SIZE, end := page * PAGE_SIZE + PAGE_SIZE);
    var old_, area := areas[a], areas[a].(cursor := cursor, shares := areas[a].shares[t := share]);
    ShareChanges(old_.shares, t, share);
    CancelPart(HeldByShares(old_.shares), HeldByShares(area.shares), HeldByShare(old_.shares[t]), HeldByShare(share), PageOf(page));
    HeldMore(HeldByShares(old_.shares), PageOf(page), multiset(Listed(area.free)));
    AreaChanges(areas, a, area);
    CancelPart(Held(areas), Held(areas[a := area]), HeldByArea(old_), HeldByArea(area), PageOf(page));
    assert (order + [page])[..|order|] == order;
    PagesMore(multiset(alive) + limbo, Held(areas), PageOf(page), Pages(order));
  }

  lemma PagesMore(others: multiset<nat>, held: multiset<nat>, more: multiset<nat>, pages: multiset<nat>)
    requires others + held == pages
    ensures others + (held + more) == pages + more
  {
    assert others + (held + more) == others + held + more;
  }

  /** Indices given back to the list of an area. */
  lemma ListGrows(areas: seq<Area>, a: nat, list: List, more: multiset<nat>)
    requires a < |areas|
    requires multiset(Listed(list)) == multiset(Listed(areas[a].free)) + more
    ensures Held(areas[a := areas[a].(free := list)]) == Held(areas) + more
  {
    var area := areas[a].(free := list);
    AreaChanges(areas, a, area);
    CancelPart(Held(areas), Held(areas[a := area]), HeldByArea(areas[a]), HeldByArea(area), more);
  }

  /** The generation of an index says how often it was destroyed, up to the wrap. */
  ghost predicate Generations(owners: seq<nat>, lives: map<nat, nat>, generations: map<nat, nat>) {
    && generations.Keys == lives.Keys
    && (forall i | i in lives :: generations[i] == lives[i] % GENERATIONS)
    && (forall i: nat :: HasPage(owners, i) <==> i in lives)
  }

  predicate HasPage(owners: seq<nat>, index: nat) { index / PAGE_SIZE < |owners| && owners[index / PAGE_SIZE] != 0 }

  /** The indices nobody had yet were never destroyed. */
  ghost predicate Fresh(share: Share, lives: map<nat, nat>) {
    forall i: nat | share.next <= i < share.end :: i in lives && lives[i] == 0
  }

  ghost predicate AllFresh(areas: seq<Area>, lives: map<nat, nat>) {
    forall a, t | 0 <= a < |areas| && 0 <= t < |areas[a].shares| :: Fresh(areas[a].shares[t], lives)
  }

  /** An index was born alive once for every life; the last of them may go on. */
  ghost predicate Births(born: set<(nat, nat)>, lives: map<nat, nat>, alive: set<nat>) {
    && (forall b | b in born :: b.0 in lives && b.1 <= lives[b.0] && (b.1 == lives[b.0] ==> b.0 in alive))
    && (forall i | i in alive :: i in lives && (i, lives[i]) in born)
  }

  lemma OnPages(owners: seq<nat>, order: seq<nat>, areas: nat, lives: map<nat, nat>, generations: map<nat, nat>, index: nat)
    requires Generations(owners, lives, generations) && Owned(owners, order, areas) && index / PAGE_SIZE in order
    ensures HasPage(owners, index) && index in lives
  {}

  lemma FreshStays(areas: seq<Area>, a: nat, t: nat, share: Share, area: Area, lives: map<nat, nat>)
    requires AllFresh(areas, lives) && a < |areas| && t < |areas[a].shares| && area.shares == areas[a].shares[t := share]
    requires Fresh(share, lives)
    ensures AllFresh(areas[a := area], lives)
  {
    var areas' := areas[a := area];
    forall b, u | 0 <= b < |areas'| && 0 <= u < |areas'[b].shares| ensures Fresh(areas'[b].shares[u], lives) {
      assert b != a || u != t ==> areas'[b].shares[u] == areas[b].shares[u];
    }
  }

  lemma FreshUnder(areas: seq<Area>, lives: map<nat, nat>, lives': map<nat, nat>)
    requires AllFresh(areas, lives) && forall i | i in lives && lives[i] == 0 :: i in lives' && lives'[i] == 0
    ensures AllFresh(areas, lives')
  {
    forall b, u | 0 <= b < |areas| && 0 <= u < |areas[b].shares| ensures Fresh(areas[b].shares[u], lives') {
      assert Fresh(areas[b].shares[u], lives);
    }
  }

  /** The generations of a new page. */
  ghost predicate IsZeros(z: map<nat, nat>, first: nat) {
    && (forall i: nat :: i in z <==> first <= i < first + PAGE_SIZE)
    && (forall i | i in z :: z[i] == 0)
  }

  /** memset of the generations of a page. */
  method NewZeros(first: nat) returns (z: map<nat, nat>)
    ensures IsZeros(z, first)
  {
    z := map[];
    for k := 0 to PAGE_SIZE
      invariant forall i: nat :: i in z <==> first <= i < first + k
      invariant forall i | i in z :: z[i] == 0
    {
      z := z[first + k := 0];
    }
  }

  lemma PageIsNew(owners: seq<nat>, order: seq<nat>, areas: nat, page: nat, owner: nat)
    requires Owned(owners, order, areas) && page < |owners| && owners[page] == 0 && 0 < owner <= areas
    ensures page !in order && Owned(owners[page := owner], order + [page], areas)
  {
    var order' := order + [page];
    forall p | 0 <= p < |owners| && owners[page := owner][p] != 0 ensures p in order' {
      assert order'[|order|] == page;
      if p != page {
        assert p in order;
      }
    }
  }

  lemma NewGenerations(owners: seq<nat>, lives: map<nat, nat>, generations: map<nat, nat>, page: nat, owner: nat,
                       z: map<nat, nat>)
    requires Generations(owners, lives, generations) && page < |owners| && owners[page] == 0 && owner != 0
    requires IsZeros(z, page * PAGE_SIZE)
    ensures Generations(owners[page := owner], lives + z, generations + z)
    ensures forall i | i in lives :: i !in z
  {
    forall i: nat ensures i in z <==> i / PAGE_SIZE == page {}
    forall i: nat ensures HasPage(owners[page := owner], i) <==> i in lives + z {
      assert HasPage(owners, i) <==> i in lives;
    }
  }

  lemma NewLives(areas: seq<Area>, a: nat, t: nat, share: Share, area: Area, lives: map<nat, nat>, first: nat,
                 born: set<(nat, nat)>, alive: set<nat>, z: map<nat, nat>)
    requires AllFresh(areas, lives) && a < |areas| && t < |areas[a].shares| && area.shares == areas[a].shares[t := share]
    requires share.next == first && share.end == first + PAGE_SIZE && Births(born, lives, alive)
    requires IsZeros(z, first) && forall i | i in lives :: i !in z
    ensures AllFresh(areas[a := area], lives + z) && Births(born, lives + z, alive)
  {
    FreshUnder(areas, lives, lives + z);
    FreshStays(areas, a, t, share, area, lives + z);
  }

  ghost predicate NoShareHas(areas: seq<Area>, index: nat) {
    forall b, u | 0 <= b < |areas| && 0 <= u < |areas[b].shares| :: index !in HeldByShare(areas[b].shares[u])
  }

  /** One life more for an index. */
  lemma LifeEnds(areas: seq<Area>, owners: seq<nat>, lives: map<nat, nat>, generations: map<nat, nat>, born: set<(nat, nat)>,
                 alive: set<nat>, index: nat)
    requires Generations(owners, lives, generations) && Births(born, lives, alive) && index in alive
    requires AllFresh(areas, lives) && NoShareHas(areas, index)
    ensures var lives' := lives[index := lives[index] + 1];
      && Generations(owners, lives', generations[index := (generations[index] + 1) % GENERATIONS])
      && Births(born, lives', alive - {index}) && AllFresh(areas, lives')
  {
    var lives' := lives[index := lives[index] + 1];
    forall b, u | 0 <= b < |areas| && 0 <= u < |areas[b].shares| ensures Fresh(areas[b].shares[u], lives') {
      assert Fresh(areas[b].shares[u], lives) && index !in HeldByShare(areas[b].shares[u]);
    }
  }

  /** What is alive is in nobody's share. */
  lemma AliveIsNotHeld(alive: set<nat>, limbo: multiset<nat>, areas: seq<Area>, order: seq<nat>, index: nat)
    requires Partition(alive, limbo, areas, order) && Once(order) && index in alive
    ensures NoShareHas(areas, index)
  {
    PagesHaveEachOnce(order, index);
    assert multiset(alive)[index] == 1 && Held(areas)[index] == 0;
    forall b, u | 0 <= b < |areas| && 0 <= u < |areas[b].shares| ensures index !in HeldByShare(areas[b].shares[u]) {
      ShareHolds(areas, b, u);
    }
  }

  lemma EndsAlive(alive: set<nat>, limbo: multiset<nat>, held: multiset<nat>, pages: multiset<nat>, index: nat)
    requires multiset(alive) + limbo + held == pages && index in alive
    ensures multiset(alive - {index}) + (limbo + multiset{index}) + held == pages
  {
    assert alive == (alive - {index}) + {index};
    assert multiset(alive) == multiset(alive - {index}) + multiset{index};
  }

  lemma LimboToList(alive: multiset<nat>, limbo: multiset<nat>, held: multiset<nat>, indices: multiset<nat>, pages: multiset<nat>)
    requires alive + limbo + held == pages && indices <= limbo
    ensures alive + (limbo - indices) + (held + indices) == pages
  {}

  lemma ListStaysFresh(areas: seq<Area>, a: nat, area: Area, lives: map<nat, nat>)
    requires AllFresh(areas, lives) && a < |areas| && area.shares == areas[a].shares
    ensures AllFresh(areas[a := area], lives)
  {}

  lemma SameRemainder(a: nat, b: nat)
    ensures a % GENERATIONS == b % GENERATIONS <==> (a - b) % GENERATIONS == 0
  {}

  lemma MultipleHasNoRest(wraps: nat)
    ensures wraps * GENERATIONS % GENERATIONS == 0
  {}

  lemma AliveLeaves(alive: set<nat>, limbo: multiset<nat>, areas: seq<Area>, order: seq<nat>, index: nat)
    requires Partition(alive, limbo, areas, order) && Once(order) && index in alive
    ensures Partition(alive - {index}, limbo + multiset{index}, areas, order)
  {
    EndsAlive(alive, limbo, Held(areas), Pages(order), index);
  }

  /** All of the allocator. lives: how often the entity of an index was
      destroyed; born: the index and life of every entity there was; limbo:
      what kill ended and giveMany did not give back yet. */
  datatype Book = Book(owners: seq<nat>, order: seq<nat>, generations: map<nat, nat>, areas: seq<Area>,
                       alive: set<nat>, limbo: multiset<nat>, lives: map<nat, nat>, born: set<(nat, nat)>)

  /** Every index of the pages is somewhere, once. */
  ghost predicate Placed(b: Book) {
    && Owned(b.owners, b.order, |b.areas|) && Partition(b.alive, b.limbo, b.areas, b.order)
    && (forall a | 0 <= a < |b.areas| :: b.areas[a].cursor < |b.owners|)
  }

  /** The generations tell the entities of an index apart. */
  ghost predicate Lived(b: Book) {
    Generations(b.owners, b.lives, b.generations) && AllFresh(b.areas, b.lives) && Births(b.born, b.lives, b.alive)
  }

  /** Both rules, under names that keep what is in them apart from the calls. */
  datatype Rules = Rules(placed: Book -> bool, lived: Book -> bool)

  ghost predicate Honest(rules: Rules) {
    && (forall b: Book {:trigger Placed(b)} :: rules.placed(b) == Placed(b))
    && (forall b: Book {:trigger Lived(b)} :: rules.lived(b) == Lived(b))
  }

  ghost predicate Sound(rules: Rules, b: Book) { Honest(rules) && rules.placed(b) && rules.lived(b) }

  /** The share of thread t of area a and the list of the area become these. */
  function WithShare(b: Book, a: nat, t: nat, share: Share, free: List): Book
    requires a < |b.areas| && t < |b.areas[a].shares|
  {
    b.(areas := b.areas[a := b.areas[a].(shares := b.areas[a].shares[t := share], free := free)])
  }

  function WithList(b: Book, a: nat, list: List): Book
    requires a < |b.areas|
  {
    b.(areas := b.areas[a := b.areas[a].(free := list)])
  }

  lemma MovePlaced(rules: Rules, b: Book, a: nat, t: nat, more: Share, list: List, moved: seq<nat>)
    requires Sound(rules, b) && a < |b.areas| && t < |b.areas[a].shares|
    requires more.next == b.areas[a].shares[t].next && more.end == b.areas[a].shares[t].end
    requires more.chunk[..more.left] == b.areas[a].shares[t].chunk[..b.areas[a].shares[t].left] + moved
    requires Listed(b.areas[a].free) == Listed(list) + moved
    ensures rules.placed(WithShare(b, a, t, more, list))
  {
    assert Placed(b);
    ChunkMoves(b.alive, b.limbo, b.areas, b.order, a, t, more, list, moved);
    assert Placed(WithShare(b, a, t, more, list));
  }

  lemma MoveLived(rules: Rules, b: Book, a: nat, t: nat, more: Share, list: List)
    requires Sound(rules, b) && a < |b.areas| && t < |b.areas[a].shares|
    requires more.next == b.areas[a].shares[t].next && more.end == b.areas[a].shares[t].end
    ensures rules.lived(WithShare(b, a, t, more, list))
  {
    assert Lived(b);
    assert Fresh(b.areas[a].shares[t], b.lives);
    FreshStays(b.areas, a, t, more, WithShare(b, a, t, more, list).areas[a], b.lives);
    assert Lived(WithShare(b, a, t, more, list));
  }

  lemma MoveKeeps(rules: Rules, b: Book, a: nat, t: nat, more: Share, list: List, moved: seq<nat>)
    requires Sound(rules, b) && a < |b.areas| && t < |b.areas[a].shares|
    requires more.next == b.areas[a].shares[t].next && more.end == b.areas[a].shares[t].end
    requires more.chunk[..more.left] == b.areas[a].shares[t].chunk[..b.areas[a].shares[t].left] + moved
    requires Listed(b.areas[a].free) == Listed(list) + moved
    ensures Sound(rules, WithShare(b, a, t, more, list))
  {
    MovePlaced(rules, b, a, t, more, list, moved);
    MoveLived(rules, b, a, t, more, list);
  }

  /** The index a thread hands out. */
  function HandedOutTo(b: Book, a: nat, t: nat, rest: Share, index: nat): Book
    requires a < |b.areas| && t < |b.areas[a].shares| && index in b.lives
  {
    WithShare(b, a, t, rest, b.areas[a].free).(alive := b.alive + {index}, born := b.born + {(index, b.lives[index])})
  }

  ghost predicate IndexIsThere(b: Book, index: nat) {
    && HasPage(b.owners, index) && index in b.lives && index in b.generations
    && b.generations[index] == b.lives[index] % GENERATIONS
  }

  lemma IsThere(rules: Rules, b: Book, index: nat)
    requires Sound(rules, b) && index / PAGE_SIZE in b.order
    ensures IndexIsThere(b, index)
  {
    assert Placed(b) && Lived(b);
    OnPages(b.owners, b.order, |b.areas|, b.lives, b.generations, index);
  }

  lemma BornOnce(born: set<(nat, nat)>, lives: map<nat, nat>, alive: set<nat>, index: nat)
    requires Births(born, lives, alive) && index in lives
    ensures Births(born + {(index, lives[index])}, lives, alive + {index})
  {}

  lemma HandOutIndex(rules: Rules, b: Book, a: nat, t: nat, rest: Share, index: nat)
    requires Sound(rules, b) && a < |b.areas| && t < |b.areas[a].shares|
    requires HeldByShare(b.areas[a].shares[t]) == HeldByShare(rest) + multiset{index}
    ensures index !in b.alive && IndexIsThere(b, index)
  {
    assert Placed(b);
    IndexGoes(b.alive, b.limbo, b.areas, b.order, a, t, rest, index);
    IsThere(rules, b, index);
  }

  lemma HandOutPlaced(rules: Rules, b: Book, a: nat, t: nat, rest: Share, index: nat)
    requires Sound(rules, b) && a < |b.areas| && t < |b.areas[a].shares| && index in b.lives
    requires HeldByShare(b.areas[a].shares[t]) == HeldByShare(rest) + multiset{index}
    ensures rules.placed(HandedOutTo(b, a, t, rest, index))
  {
    assert Placed(b);
    IndexGoes(b.alive, b.limbo, b.areas, b.order, a, t, rest, index);
    assert Placed(HandedOutTo(b, a, t, rest, index));
  }

  lemma HandOutLived(rules: Rules, b: Book, a: nat, t: nat, rest: Share, index: nat)
    requires Sound(rules, b) && a < |b.areas| && t < |b.areas[a].shares| && index in b.lives
    requires b.areas[a].shares[t].next <= rest.next && rest.end == b.areas[a].shares[t].end
    ensures rules.lived(HandedOutTo(b, a, t, rest, index))
  {
    assert Lived(b);
    assert Fresh(b.areas[a].shares[t], b.lives);
    BornOnce(b.born, b.lives, b.alive, index);
    FreshStays(b.areas, a, t, rest, HandedOutTo(b, a, t, rest, index).areas[a], b.lives);
    assert Lived(HandedOutTo(b, a, t, rest, index));
  }

  lemma HandOutKeeps(rules: Rules, b: Book, a: nat, t: nat, rest: Share, index: nat)
    requires Sound(rules, b) && a < |b.areas| && t < |b.areas[a].shares|
    requires HeldByShare(b.areas[a].shares[t]) == HeldByShare(rest) + multiset{index}
    requires b.areas[a].shares[t].next <= rest.next && rest.end == b.areas[a].shares[t].end
    ensures index !in b.alive && IndexIsThere(b, index)
    ensures Sound(rules, HandedOutTo(b, a, t, rest, index))
  {
    HandOutIndex(rules, b, a, t, rest, index);
    HandOutPlaced(rules, b, a, t, rest, index);
    HandOutLived(rules, b, a, t, rest, index);
  }

  /** A page for a thread; z are its generations. */
  function Installed(b: Book, a: nat, t: nat, page: nat, cursor: nat, z: map<nat, nat>): Book
    requires a < |b.areas| && t < |b.areas[a].shares| && page < |b.owners|
  {
    var share: Share := b.areas[a].shares[t].(next := page * PAGE_SIZE, end := page * PAGE_SIZE + PAGE_SIZE);
    b.(owners := b.owners[page := a + 1], order := b.order + [page], generations := b.generations + z, lives := b.lives + z,
    areas := b.areas[a := b.areas[a].(cursor := cursor, shares := b.areas[a].shares[t := share])])
  }

  lemma InstallPlaced(rules: Rules, b: Book, a: nat, t: nat, page: nat, cursor: nat, z: map<nat, nat>)
    requires Sound(rules, b) && a < |b.areas| && t < |b.areas[a].shares| && page < |b.owners| && b.owners[page] == 0
    requires b.areas[a].shares[t].next == b.areas[a].shares[t].end && cursor < |b.owners| && IsZeros(z, page * PAGE_SIZE)
    ensures rules.placed(Installed(b, a, t, page, cursor, z))
  {
    assert Placed(b);
    PageIsMore(b.alive, b.limbo, b.areas, b.order, a, t, page, cursor);
    PageIsNew(b.owners, b.order, |b.areas|, page, a + 1);
    assert Placed(Installed(b, a, t, page, cursor, z));
  }

  lemma InstallLived(rules: Rules, b: Book, a: nat, t: nat, page: nat, cursor: nat, z: map<nat, nat>)
    requires Sound(rules, b) && a < |b.areas| && t < |b.areas[a].shares| && page < |b.owners| && b.owners[page] == 0
    requires b.areas[a].shares[t].next == b.areas[a].shares[t].end && cursor < |b.owners| && IsZeros(z, page * PAGE_SIZE)
    ensures rules.lived(Installed(b, a, t, page, cursor, z))
  {
    assert Lived(b);
    var b' := Installed(b, a, t, page, cursor, z);
    NewGenerations(b.owners, b.lives, b.generations, page, a + 1, z);
    NewLives(b.areas, a, t, b'.areas[a].shares[t], b'.areas[a], b.lives, page * PAGE_SIZE, b.born, b.alive, z);
    assert Lived(Installed(b, a, t, page, cursor, z));
  }

  lemma InstallKeeps(rules: Rules, b: Book, a: nat, t: nat, page: nat, cursor: nat, z: map<nat, nat>)
    requires Sound(rules, b) && a < |b.areas| && t < |b.areas[a].shares| && page < |b.owners| && b.owners[page] == 0
    requires b.areas[a].shares[t].next == b.areas[a].shares[t].end && cursor < |b.owners| && IsZeros(z, page * PAGE_SIZE)
    ensures Sound(rules, Installed(b, a, t, page, cursor, z))
  {
    InstallPlaced(rules, b, a, t, page, cursor, z);
    InstallLived(rules, b, a, t, page, cursor, z);
  }

  function Ended(b: Book, index: nat): Book
    requires index in b.generations && index in b.lives
  {
    b.(generations := b.generations[index := (b.generations[index] + 1) % GENERATIONS],
    lives := b.lives[index := b.lives[index] + 1], alive := b.alive - {index}, limbo := b.limbo + multiset{index})
  }

  lemma NoShareHasAlive(rules: Rules, b: Book, index: nat)
    requires Sound(rules, b) && index in b.alive
    ensures NoShareHas(b.areas, index)
  {
    assert Placed(b);
    AliveIsNotHeld(b.alive, b.limbo, b.areas, b.order, index);
  }

  lemma AliveIsThere(rules: Rules, b: Book, index: nat)
    requires Sound(rules, b) && index in b.alive
    ensures index in b.generations && index in b.lives
  {
    assert Lived(b);
  }

  lemma EndPlaced(rules: Rules, b: Book, index: nat)
    requires Sound(rules, b) && index in b.alive && index in b.generations && index in b.lives
    ensures rules.placed(Ended(b, index))
  {
    assert Placed(b);
    AliveLeaves(b.alive, b.limbo, b.areas, b.order, index);
    assert Placed(Ended(b, index));
  }

  lemma EndLived(rules: Rules, b: Book, index: nat)
    requires Sound(rules, b) && index in b.alive && index in b.generations && index in b.lives
    ensures rules.lived(Ended(b, index))
  {
    assert Lived(b);
    NoShareHasAlive(rules, b, index);
    LifeEnds(b.areas, b.owners, b.lives, b.generations, b.born, b.alive, index);
    assert Lived(Ended(b, index));
  }

  lemma EndKeeps(rules: Rules, b: Book, index: nat)
    requires Sound(rules, b) && index in b.alive
    ensures index in b.generations && index in b.lives && Sound(rules, Ended(b, index))
  {
    AliveIsThere(rules, b, index);
    EndPlaced(rules, b, index);
    EndLived(rules, b, index);
  }

  lemma ReturnPlaced(rules: Rules, b: Book, a: nat, list: List, indices: multiset<nat>)
    requires Sound(rules, b) && a < |b.areas| && indices <= b.limbo
    requires multiset(Listed(list)) == multiset(Listed(b.areas[a].free)) + indices
    ensures rules.placed(WithList(b, a, list).(limbo := b.limbo - indices))
  {
    assert Placed(b);
    IndicesReturn(b.alive, b.limbo, b.areas, b.order, a, list, indices);
    assert Placed(WithList(b, a, list).(limbo := b.limbo - indices));
  }

  lemma ReturnLived(rules: Rules, b: Book, a: nat, list: List, indices: multiset<nat>)
    requires Sound(rules, b) && a < |b.areas|
    ensures rules.lived(WithList(b, a, list).(limbo := b.limbo - indices))
  {
    assert Lived(b);
    ListStaysFresh(b.areas, a, WithList(b, a, list).areas[a], b.lives);
    assert Lived(WithList(b, a, list).(limbo := b.limbo - indices));
  }

  lemma ReturnKeeps(rules: Rules, b: Book, a: nat, list: List, indices: multiset<nat>)
    requires Sound(rules, b) && a < |b.areas| && indices <= b.limbo
    requires multiset(Listed(list)) == multiset(Listed(b.areas[a].free)) + indices
    ensures Sound(rules, WithList(b, a, list).(limbo := b.limbo - indices))
  {
    ReturnPlaced(rules, b, a, list, indices);
    ReturnLived(rules, b, a, list, indices);
  }

  /** All pages are somebody's. */
  predicate AllTaken(owners: seq<nat>) { forall p | 0 <= p < |owners| :: owners[p] != 0 }

  /** The first page nobody has, from one on, and past the last one from 0. */
  ghost predicate IsNextFree(owners: seq<nat>, from: nat, page: nat) {
    && page < |owners| && owners[page] == 0
    && (if from <= page then forall q | from <= q < page :: owners[q] != 0
        else (forall q | from <= q < |owners| :: owners[q] != 0) && (forall q | 0 <= q < page :: owners[q] != 0))
  }

  /** Neither a share nor the list of its area has an index. */
  predicate NoneLeft(area: Area, t: nat)
    requires t < |area.shares|
  {
    area.shares[t].left == 0 && area.free.left <= 0 && area.shares[t].next == area.shares[t].end
  }

  /** An index went from a share with its area: the last one of the chunk of the
      share, else the last one of a chunk from the end of the list, else the next
      one of the page of the share. */
  ghost predicate IsHandedOut(area: Area, area': Area, t: nat, index: nat)
    requires t < |area.shares|
  {
    && |area'.shares| == |area.shares|
    && var share, share' := area.shares[t], area'.shares[t];
       && area' == area.(free := area'.free, shares := area.shares[t := share'])
       && if share.left > 0 then
            index == share.chunk[share.left - 1] && share' == share.(left := share.left - 1) && area'.free == area.free
          else if area.free.left > 0 then
            && share'.next == share.next && share'.end == share.end
            && Listed(area.free) == Listed(area'.free) + share'.chunk[..share'.left] + [index]
          else
            && share.next < share.end && index == share.next && share' == share.(next := share.next + 1)
            && Listed(area'.free) == Listed(area.free)
  }

  /** With no index of a chunk left, the share has of a chunk what the list has
      no more, and nothing only if no chunk was left. */
  ghost predicate IsTaken(area: Area, area': Area, t: nat)
    requires t < |area.shares|
  {
    && |area'.shares| == |area.shares|
    && var share, taken := area.shares[t], area'.shares[t];
       if share.left != 0 then area' == area
       else
         && area' == area.(free := area'.free, shares := area.shares[t := taken])
         && taken.next == share.next && taken.end == share.end && (taken.left == 0 ==> taken == share)
         && Listed(area.free) == Listed(area'.free) + taken.chunk[..taken.left]
         && (taken.left == 0 <==> area.free.left <= 0)
  }

  lemma TakenIsHandedOut(area: Area, taken: Area, area': Area, t: nat)
    requires t < |area.shares| && IsTaken(area, taken, t) && taken.shares[t].left > 0
    requires area' == taken.(shares := taken.shares[t := taken.shares[t].(left := taken.shares[t].left - 1)])
    ensures IsHandedOut(area, area', t, taken.shares[t].chunk[taken.shares[t].left - 1])
  {
    var share := taken.shares[t];
    assert share.chunk[..share.left] == share.chunk[..share.left - 1] + [share.chunk[share.left - 1]];
    assert area'.shares == area.shares[t := area'.shares[t]];
  }

  /** The index is the first one of a new page, the rest of which is the share's. */
  ghost predicate IsFromPage(area: Area, area': Area, owners: seq<nat>, owners': seq<nat>, owner: nat, t: nat, page: nat)
    requires t < |area.shares|
  {
    && IsNextFree(owners, area.cursor, page) && owners' == owners[page := owner]
    && area'.cursor == NextPage(page, |owners|) && Listed(area'.free) == Listed(area.free)
    && area'.shares == area.shares[t := area.shares[t].(next := page * PAGE_SIZE + 1, end := page * PAGE_SIZE + PAGE_SIZE)]
  }

  /** An index nobody had before came from the page of the share, or a new one. */
  ghost predicate IsNextOne(area: Area, area': Area, owners: seq<nat>, owners': seq<nat>, owner: nat, t: nat, index: Option<nat>)
    requires t < |area.shares|
  {
    var share := area.shares[t];
    if share.next < share.end then
      && index == Some(share.next) && owners' == owners
      && area' == area.(shares := area.shares[t := share.(next := share.next + 1)])
    else if index.None? then area' == area && owners' == owners
    else exists page: nat :: IsFromPage(area, area', owners, owners', owner, t, page) && index.value == page * PAGE_SIZE
  }

  /** What create hands out: what there is in the share or the list, or else the
      first index of the next page nobody has, or nothing. */
  ghost predicate IsCreated(area: Area, area': Area, owners: seq<nat>, owners': seq<nat>, owner: nat, t: nat, index: Option<nat>)
    requires t < |area.shares|
  {
    if !NoneLeft(area, t) then index.Some? && owners' == owners && IsHandedOut(area, area', t, index.value)
    else if index.None? then owners' == owners && area'.shares == area.shares
    else exists page: nat :: IsFromPage(area, area', owners, owners', owner, t, page) && index.value == page * PAGE_SIZE
  }

  function IndexOf(e: Option<Entity>): Option<nat> { if e.Some? then Some(e.value.index) else None }

  lemma FirstOfPage(areas: seq<Area>, areas': seq<Area>, owners: seq<nat>, owners': seq<nat>, a: nat, t: nat, page: nat)
    requires a < |areas| == |areas'| && t < |areas[a].shares| && IsNextFree(owners, areas[a].cursor, page)
    requires owners' == owners[page := a + 1]
    requires areas'[a] == areas[a].(cursor := NextPage(page, |owners|),
                                    shares := areas[a].shares[t := areas[a].shares[t].(next := page * PAGE_SIZE + 1,
                                                                                       end := page * PAGE_SIZE + PAGE_SIZE)])
    ensures IsFromPage(areas[a], areas'[a], owners, owners', a + 1, t, page)
  {}

  /** Without a chunk to take, the next one is what is handed out. */
  lemma NextIsCreated(area: Area, taken: Area, area': Area, owners: seq<nat>, owners': seq<nat>, owner: nat, t: nat,
                      index: Option<nat>)
    requires t < |area.shares| && IsTaken(area, taken, t) && taken.shares[t].left == 0
    requires IsNextOne(taken, area', owners, owners', owner, t, index)
    ensures IsCreated(area, area', owners, owners', owner, t, index)
  {
    assert taken.shares == area.shares;
    if area.shares[t].next == area.shares[t].end && index.Some? {
      var page: nat :| IsFromPage(taken, area', owners, owners', owner, t, page) && index.value == page * PAGE_SIZE;
      assert IsFromPage(area, area', owners, owners', owner, t, page);
    }
  }

  /** create made this entity, of an index nobody had. */
  ghost predicate IsMade(alive: set<nat>, born: set<(nat, nat)>, alive': set<nat>, born': set<(nat, nat)>,
                         lives: map<nat, nat>, e: Entity) {
    && e.index !in alive && alive' == alive + {e.index}
    && e.index in lives && e.generation == lives[e.index] % GENERATIONS && born' == born + {(e.index, lives[e.index])}
  }

  lemma CursorIsPage(rules: Rules, b: Book, a: nat)
    requires Sound(rules, b) && a < |b.areas|
    ensures b.areas[a].cursor < |b.owners|
  {
    assert Placed(b);
  }

  lemma NextOfPage(rules: Rules, b: Book, a: nat, t: nat)
    requires Sound(rules, b) && a < |b.areas| && t < |b.areas[a].shares| && b.areas[a].shares[t].next < b.areas[a].shares[t].end
    ensures var share := b.areas[a].shares[t]; var rest: Share := share.(next := share.next + 1);
      && HeldByShare(share) == HeldByShare(rest) + multiset{share.next}
      && share.next in b.lives && b.lives[share.next] == 0 && share.next in b.generations && b.generations[share.next] == 0
  {
    assert Lived(b);
    var share := b.areas[a].shares[t];
    assert Fresh(share, b.lives);
    RangeSplits(share.next, share.next + 1, share.end);
    RangeOfOne(share.next);
    HeldMore(multiset{share.next}, Range(share.next + 1, share.end), multiset(share.chunk[..share.left]));
  }

  lemma LimboIsOwned(rules: Rules, b: Book, index: nat)
    requires Sound(rules, b) && index in b.limbo
    ensures index / PAGE_SIZE < |b.owners| && 0 < b.owners[index / PAGE_SIZE] <= |b.areas|
  {
    assert Placed(b);
    PagesHaveEachOnce(b.order, index);
    assert Pages(b.order)[index] >= b.limbo[index] >= 1;
    assert index / PAGE_SIZE in b.order;
  }

  /** The next of the indices that are to go. */
  lemma OneMoreGoes(limbo: multiset<nat>, indices: seq<nat>, k: nat)
    requires k < |indices| && multiset(indices) <= limbo
    ensures indices[k] in limbo - multiset(indices[..k])
    ensures limbo - multiset(indices[..k]) - multiset{indices[k]} == limbo - multiset(indices[..k + 1])
  {
    assert indices[..k + 1] == indices[..k] + [indices[k]];
    assert indices == indices[..k + 1] + indices[k + 1..];
  }

  function NewArea(start: nat, threads: nat): Area { Area(start, EMPTY, seq(threads, _ => Share(0, 0, [], 0))) }

  lemma {:induction false} TogetherNothing(parts: seq<multiset<nat>>)
    requires forall k | 0 <= k < |parts| :: parts[k] == multiset{}
    ensures Together(parts) == multiset{}
  {
    if parts != [] {
      TogetherNothing(parts[1..]);
    }
  }

  ghost predicate IsEmpty(area: Area) {
    area.free == EMPTY && forall t | 0 <= t < |area.shares| :: area.shares[t] == Share(0, 0, [], 0)
  }

  lemma EmptyHolds(area: Area)
    requires IsEmpty(area)
    ensures HeldByArea(area) == multiset{}
  {
    TogetherNothing(SharesOf(area.shares));
    assert Listed(area.free) == [];
  }

  lemma NothingIsHeld(areas: seq<Area>)
    requires forall a | 0 <= a < |areas| :: IsEmpty(areas[a])
    ensures Held(areas) == multiset{}
  {
    forall a | 0 <= a < |areas| ensures AreasOf(areas)[a] == multiset{} {
      EmptyHolds(areas[a]);
    }
    TogetherNothing(AreasOf(areas));
  }

  lemma NothingIsSound(rules: Rules, b: Book)
    requires Honest(rules) && Held(b.areas) == multiset{} && b.order == [] && forall p | 0 <= p < |b.owners| :: b.owners[p] == 0
    requires forall a | 0 <= a < |b.areas| :: b.areas[a].cursor < |b.owners| && IsEmpty(b.areas[a])
    requires b.generations == map[] && b.lives == map[] && b.alive == {} && b.born == {} && b.limbo == multiset{}
    ensures Sound(rules, b)
  {
    assert Placed(b) && Lived(b);
  }

  lemma BornIsThere(rules: Rules, b: Book, index: nat, life: nat)
    requires Sound(rules, b) && (index, life) in b.born && index in b.lives
    ensures IndexIsThere(b, index) && life <= b.lives[index] && (life == b.lives[index] ==> index in b.alive)
  {
    assert Lived(b);
  }

  /** Every index of a page is in one place. */
  lemma PlacesOf(rules: Rules, b: Book, index: nat)
    requires Sound(rules, b)
    ensures HasPage(b.owners, index) <==> index in b.lives
    ensures HasPage(b.owners, index) ==> IndexIsThere(b, index)
    ensures HasPage(b.owners, index) <==> index in b.alive || index in b.limbo || index in Held(b.areas)
    ensures Bool(index in b.alive) + b.limbo[index] + Held(b.areas)[index] <= 1
  {
    assert Placed(b) && Lived(b);
    PagesHaveEachOnce(b.order, index);
    assert HasPage(b.owners, index) <==> index / PAGE_SIZE in b.order;
    assert (multiset(b.alive) + b.limbo + Held(b.areas))[index] == Pages(b.order)[index];
    assert multiset(b.alive)[index] == Bool(index in b.alive);
  }

  lemma NeverBorn(rules: Rules, b: Book, index: nat)
    requires Sound(rules, b) && index in b.lives && b.lives[index] == 0 && index !in b.alive
    ensures forall life | (index, life) in b.born :: false
  {
    assert Lived(b);
  }

  lemma AllAreCounted(rules: Rules, b: Book)
    requires Sound(rules, b)
    ensures |b.order| * PAGE_SIZE == |b.alive| + |b.limbo| + |Held(b.areas)|
  {
    assert Placed(b);
    SizeOfPages(b.order);
    assert |multiset(b.alive)| == |b.alive|;
  }

  /** What an area has: the shares one by one, and free.size(). */
  method CountHeld(area: Area) returns (held: nat)
    ensures held == |HeldByArea(area)|
  {
    held := 0;
    for t := 0 to |area.shares|
      invariant held == |Together(SharesOf(area.shares)[..t])|
    {
      TogetherUpTo(SharesOf(area.shares), t);
      held := held + (area.shares[t].end - area.shares[t].next) + area.shares[t].left;
    }
    assert SharesOf(area.shares)[..|area.shares|] == SharesOf(area.shares);
    var listed := Size(area.free);
    held := held + listed;
  }

  // --- indices to give back -------------------------------------------------

  predicate IsOf(owners: seq<nat>, index: nat, a: nat) { index / PAGE_SIZE < |owners| && owners[index / PAGE_SIZE] == a + 1 }

  /** The indices that go to the list of an area, in their order. */
  function IndicesOf(owners: seq<nat>, indices: seq<nat>, a: nat): seq<nat> {
    if indices == [] then []
    else
      var last := indices[|indices| - 1];
      IndicesOf(owners, indices[..|indices| - 1], a) + if IsOf(owners, last, a) then [last] else []
  }

  /** The list of every area has those of its pages behind what it had, and
      nothing else is changed. */
  ghost predicate Returned(before: seq<Area>, areas: seq<Area>, owners: seq<nat>, indices: seq<nat>) {
    && |areas| == |before|
    && forall a | 0 <= a < |areas| :: ReturnedTo(before[a], areas[a], owners, indices, a)
  }

  lemma ReturnedOne(before: seq<Area>, areas: seq<Area>, owners: seq<nat>, i: nat, a: nat)
    requires a < |before| == |areas| && IsOf(owners, i, a)
    requires areas == before[a := before[a].(free := areas[a].free)] && Listed(areas[a].free) == Listed(before[a].free) + [i]
    ensures Returned(before, areas, owners, [i])
  {
    forall b | 0 <= b < |areas| ensures ReturnedTo(before[b], areas[b], owners, [i], b) {
      assert IndicesOf(owners, [i], b) == if b == a then [i] else [];
    }
  }

  lemma OneMoreOf(owners: seq<nat>, indices: seq<nat>, k: nat, a: nat)
    requires k < |indices|
    ensures IndicesOf(owners, indices[..k + 1], a) == IndicesOf(owners, indices[..k], a) + IndicesOf(owners, [indices[k]], a)
  {
    assert indices[..k + 1][..k] == indices[..k];
    assert IndicesOf(owners, [indices[k]], a) == if IsOf(owners, indices[k], a) then [indices[k]] else [];
  }

  /** An area of it. */
  ghost predicate ReturnedTo(before: Area, area: Area, owners: seq<nat>, indices: seq<nat>, a: nat) {
    area == before.(free := area.free) && Listed(area.free) == Listed(before.free) + IndicesOf(owners, indices, a)
  }

  lemma ReturnedNextTo(before: Area, area: Area, area': Area, owners: seq<nat>, indices: seq<nat>, k: nat, a: nat)
    requires k < |indices| && ReturnedTo(before, area, owners, indices[..k], a) && ReturnedTo(area, area', owners, [indices[k]], a)
    ensures ReturnedTo(before, area', owners, indices[..k + 1], a)
  {
    OneMoreOf(owners, indices, k, a);
  }

  lemma ReturnedNext(before: seq<Area>, areas: seq<Area>, areas': seq<Area>, owners: seq<nat>, indices: seq<nat>, k: nat)
    requires k < |indices| && Returned(before, areas, owners, indices[..k]) && Returned(areas, areas', owners, [indices[k]])
    ensures Returned(before, areas', owners, indices[..k + 1])
  {
    forall a | 0 <= a < |areas'| ensures ReturnedTo(before[a], areas'[a], owners, indices[..k + 1], a) {
      assert ReturnedTo(before[a], areas[a], owners, indices[..k], a);
      assert ReturnedTo(areas[a], areas'[a], owners, [indices[k]], a);
      ReturnedNextTo(before[a], areas[a], areas'[a], owners, indices, k, a);
    }
  }

  // --- pages to give back ---------------------------------------------------

  /** The owner of the page that indices are of, none for no indices. */
  function OwnerOf(owners: seq<nat>, indices: seq<nat>): nat {
    if indices != [] && indices[0] / PAGE_SIZE < |owners| then owners[indices[0] / PAGE_SIZE] else 0
  }

  /** Those that go to the list of an area, in their order. */
  function PagesOfArea(owners: seq<nat>, pages: seq<seq<nat>>, a: nat): seq<seq<nat>> {
    if pages == [] then []
    else
      var last := pages[|pages| - 1];
      PagesOfArea(owners, pages[..|pages| - 1], a) + if OwnerOf(owners, last) == a + 1 then [last] else []
  }

  /** What the first areas get. */
  function Below(gets: nat -> multiset<nat>, count: nat): multiset<nat>
    decreases count
  {
    if count == 0 then multiset{} else Below(gets, count - 1) + gets(count - 1)
  }

  lemma MoreOfBoth(a: multiset<nat>, b: multiset<nat>, x: multiset<nat>, y: multiset<nat>)
    ensures a + x + (b + y) == a + b + (x + y)
  {}

  lemma {:induction false} BelowOfBoth(one: nat -> multiset<nat>, other: nat -> multiset<nat>, both: nat -> multiset<nat>, count: nat)
    requires forall a: nat | a < count :: both(a) == one(a) + other(a)
    ensures Below(both, count) == Below(one, count) + Below(other, count)
    decreases count
  {
    if count > 0 {
      BelowOfBoth(one, other, both, count - 1);
      MoreOfBoth(Below(one, count - 1), one(count - 1), Below(other, count - 1), other(count - 1));
    }
  }

  lemma {:induction false} BelowMore(gets: nat -> multiset<nat>, count: nat, all: nat)
    requires count <= all
    ensures Below(gets, count) <= Below(gets, all)
    decreases all
  {
    if count < all {
      BelowMore(gets, count, all - 1);
    }
  }

  lemma {:induction false} BelowNothing(gets: nat -> multiset<nat>, count: nat)
    requires forall a: nat | a < count :: gets(a) == multiset{}
    ensures Below(gets, count) == multiset{}
    decreases count
  {
    if count > 0 {
      BelowNothing(gets, count - 1);
    }
  }

  /** Only one of them gets something. */
  lemma {:induction false} BelowOne(gets: nat -> multiset<nat>, count: nat, a: nat)
    requires a < count && forall b: nat | b < count && b != a :: gets(b) == multiset{}
    ensures Below(gets, count) == gets(a)
    decreases count
  {
    if a == count - 1 {
      BelowNothing(gets, count - 1);
    } else {
      BelowOne(gets, count - 1, a);
    }
  }

  /** What an area gets of all pages, and of one. */
  function Gets(owners: seq<nat>, pages: seq<seq<nat>>): nat -> multiset<nat> {
    (a: nat) => multiset(Ranks.Flat<nat>(PagesOfArea(owners, pages, a)))
  }

  function GetsOne(owners: seq<nat>, page: seq<nat>): nat -> multiset<nat> {
    (a: nat) => if OwnerOf(owners, page) == a + 1 then multiset(page) else multiset{}
  }

  lemma FlatWithLast(pages: seq<seq<nat>>, last: seq<nat>)
    ensures multiset(Ranks.Flat<nat>(pages + [last])) == multiset(Ranks.Flat<nat>(pages)) + multiset(last)
  {
    assert (pages + [last])[..|pages|] == pages;
  }

  lemma GetsOneMore(owners: seq<nat>, pages: seq<seq<nat>>, last: seq<nat>, a: nat)
    ensures Gets(owners, pages + [last])(a) == Gets(owners, pages)(a) + GetsOne(owners, last)(a)
  {
    assert (pages + [last])[..|pages|] == pages;
    var others := PagesOfArea(owners, pages, a);
    if OwnerOf(owners, last) == a + 1 {
      FlatWithLast(others, last);
    } else {
      assert others + [] == others;
    }
  }

  lemma OneAreaGetsIt(owners: seq<nat>, page: seq<nat>, count: nat)
    requires page != [] ==> 0 < OwnerOf(owners, page) <= count
    ensures Below(GetsOne(owners, page), count) == multiset(page)
  {
    if page == [] {
      BelowNothing(GetsOne(owners, page), count);
    } else {
      BelowOne(GetsOne(owners, page), count, OwnerOf(owners, page) - 1);
    }
  }

  /** Every page that has an owner goes to some list. */
  lemma {:induction false} AllPagesGo(owners: seq<nat>, pages: seq<seq<nat>>, count: nat)
    requires forall k | 0 <= k < |pages| && pages[k] != [] :: 0 < OwnerOf(owners, pages[k]) <= count
    ensures Below(Gets(owners, pages), count) == multiset(Ranks.Flat<nat>(pages))
  {
    if pages == [] {
      BelowNothing(Gets(owners, pages), count);
    } else {
      var init, last := pages[..|pages| - 1], pages[|pages| - 1];
      AllPagesGo(owners, init, count);
      assert pages == init + [last];
      forall a: nat | a < count ensures Gets(owners, pages)(a) == Gets(owners, init)(a) + GetsOne(owners, last)(a) {
        GetsOneMore(owners, init, last, a);
      }
      BelowOfBoth(Gets(owners, init), GetsOne(owners, last), Gets(owners, pages), count);
      OneAreaGetsIt(owners, last, count);
      FlatWithLast(init, last);
    }
  }

  lemma FirstIsFlat(pages: seq<seq<nat>>, k: nat)
    requires k < |pages| && pages[k] != []
    ensures pages[k][0] in multiset(Ranks.Flat<nat>(pages))
  {
    Ranks.FlatAt(pages, k, 0);
    assert pages[k][0] in Ranks.Flat<nat>(pages);
  }

  /** The lists of the first areas have their pages, and nothing else is changed. */
  ghost predicate Given(before: seq<Area>, areas: seq<Area>, owners: seq<nat>, pages: seq<seq<nat>>, count: nat) {
    && |areas| == |before|
    && (forall a | 0 <= a < |areas| :: areas[a] == before[a].(free := areas[a].free))
    && (forall a | count <= a < |areas| :: areas[a] == before[a])
    && (forall a | 0 <= a < |areas| && a < count ::
          Listed(areas[a].free) == Listed(before[a].free) + Ranks.Flat<nat>(PagesOfArea(owners, pages, a)))
  }

  lemma GivenNext(before: seq<Area>, areas: seq<Area>, areas': seq<Area>, owners: seq<nat>, pages: seq<seq<nat>>, a: nat)
    requires Given(before, areas, owners, pages, a) && a < |areas| == |areas'|
    requires areas' == areas[a := areas[a].(free := areas'[a].free)]
    requires Listed(areas'[a].free) == Listed(areas[a].free) + Ranks.Flat<nat>(PagesOfArea(owners, pages, a))
    ensures Given(before, areas', owners, pages, a + 1)
  {
    forall b | 0 <= b < |areas'| && b != a ensures areas'[b] == areas[b] {}
  }

  lemma GoesNext(limbo: multiset<nat>, below: multiset<nat>, next: multiset<nat>)
    requires below + next <= limbo
    ensures next <= limbo - below && limbo - below - next == limbo - (below + next)
  {}

  /** What is left of the indices after the first areas. */
  ghost predicate IsLeft(limbo: multiset<nat>, all: multiset<nat>, gets: nat -> multiset<nat>, a: nat) {
    limbo == all - Below(gets, a)
  }

  ghost predicate AreThere(limbo: multiset<nat>, gets: nat -> multiset<nat>, count: nat) { Below(gets, count) <= limbo }

  lemma AllIsLeft(limbo: multiset<nat>, gets: nat -> multiset<nat>)
    ensures IsLeft(limbo, limbo, gets, 0)
  {
    assert limbo - multiset{} == limbo;
  }

  lemma NextPagesAreThere(gets: nat -> multiset<nat>, a: nat, count: nat, limbo: multiset<nat>)
    requires a < count && AreThere(limbo, gets, count)
    ensures var left := limbo - Below(gets, a); gets(a) <= left && left - gets(a) == limbo - Below(gets, a + 1)
  {
    BelowMore(gets, a + 1, count);
    GoesNext(limbo, Below(gets, a), gets(a));
  }

  /** What is on its way back is of pages with an owner. */
  lemma PagesAreOwned(rules: Rules, b: Book, pages: seq<seq<nat>>)
    requires Sound(rules, b) && multiset(Ranks.Flat<nat>(pages)) <= b.limbo
    ensures Below(Gets(b.owners, pages), |b.areas|) == multiset(Ranks.Flat<nat>(pages))
  {
    forall k | 0 <= k < |pages| && pages[k] != [] ensures 0 < OwnerOf(b.owners, pages[k]) <= |b.areas| {
      FirstIsFlat(pages, k);
      LimboIsOwned(rules, b, pages[k][0]);
    }
    AllPagesGo(b.owners, pages, |b.areas|);
  }

  /** giveMany of pages, after the first areas: before and all are areas and
      limbo as they were. */
  ghost predicate Giving(before: seq<Area>, all: multiset<nat>, areas: seq<Area>, limbo: multiset<nat>,
                         owners: seq<nat>, pages: seq<seq<nat>>, a: nat) {
    && Given(before, areas, owners, pages, a)
    && AreThere(all, Gets(owners, pages), |before|) && IsLeft(limbo, all, Gets(owners, pages), a)
  }

  lemma StartsGiving(rules: Rules, b: Book, pages: seq<seq<nat>>)
    requires Sound(rules, b) && multiset(Ranks.Flat<nat>(pages)) <= b.limbo
    ensures Giving(b.areas, b.limbo, b.areas, b.limbo, b.owners, pages, 0)
  {
    PagesAreOwned(rules, b, pages);
    AllIsLeft(b.limbo, Gets(b.owners, pages));
  }

  lemma EndsGiving(rules: Rules, b: Book, areas: seq<Area>, limbo: multiset<nat>, pages: seq<seq<nat>>)
    requires Sound(rules, b) && multiset(Ranks.Flat<nat>(pages)) <= b.limbo
    requires Giving(b.areas, b.limbo, areas, limbo, b.owners, pages, |b.areas|)
    ensures limbo == b.limbo - multiset(Ranks.Flat<nat>(pages)) && Given(b.areas, areas, b.owners, pages, |b.areas|)
  {
    PagesAreOwned(rules, b, pages);
  }

  class EntityAllocator {
    const pageLimit: nat
    ghost const rules: Rules
    var owners: seq<nat>
    var order: seq<nat>
    var generations: map<nat, nat>
    var areas: seq<Area>
    ghost var alive: set<nat>
    ghost var limbo: multiset<nat>
    ghost var lives: map<nat, nat>
    ghost var born: set<(nat, nat)>

    ghost function Whole(): Book
      reads this
    {
      Book(owners, order, generations, areas, alive, limbo, lives, born)
    }

    ghost predicate Valid()
      reads this
    {
      |owners| == pageLimit && Sound(rules, Whole())
    }

    predicate HasShare(a: nat, t: nat)
      reads this
    {
      a < |areas| && t < |areas[a].shares|
    }

    /** valid. */
    predicate Exists(e: Entity)
      reads this
    {
      HasPage(owners, e.index) && e.index in generations && generations[e.index] == e.generation
    }

    /** No page is anybody's yet. starts: the page every area looks at first. */
    constructor (pageLimit: nat, starts: seq<nat>, threads: nat)
      requires forall a | 0 <= a < |starts| :: starts[a] < pageLimit
      ensures Valid() && this.pageLimit == pageLimit && |areas| == |starts| && alive == {} && limbo == multiset{} && born == {}
      ensures forall a | 0 <= a < |areas| :: areas[a].cursor == starts[a] && |areas[a].shares| == threads
    {
      this.pageLimit := pageLimit;
      rules := Rules((b: Book) => Placed(b), (b: Book) => Lived(b));
      owners, order, generations := seq(pageLimit, _ => 0), [], map[];
      areas := seq(|starts|, a requires 0 <= a < |starts| => NewArea(starts[a], threads));
      alive, limbo, lives, born := {}, multiset{}, map[], {};
      new;
      NothingIsHeld(areas);
      NothingIsSound(rules, Whole());
    }

    /** An entity that was made is valid exactly when its index was destroyed a
        multiple of 2^32 times since it was born. */
    lemma ValidByLives(index: nat, life: nat)
      requires Valid() && (index, life) in born && index in lives
      ensures life <= lives[index]
      ensures Exists(Entity(index, life % GENERATIONS)) <==> (lives[index] - life) % GENERATIONS == 0
    {
      BornIsThere(rules, Whole(), index, life);
      SameRemainder(lives[index], life);
    }

    /** So valid says whether this very life goes on, exactly where it does or
        where the times its index was destroyed since are no multiple of 2^32. */
    lemma ValidIsExactUnlessWrapped(index: nat, life: nat)
      requires Valid() && (index, life) in born && index in lives
      ensures (Exists(Entity(index, life % GENERATIONS)) <==> index in alive && lives[index] == life)
          <==> lives[index] == life || (lives[index] - life) % GENERATIONS != 0
    {
      ValidByLives(index, life);
      BornIsThere(rules, Whole(), index, life);
    }

    /** An entity that was made is valid exactly while it lives, up to the wrap
        of the generations of its index. */
    lemma ValidWhileAlive(index: nat, life: nat)
      requires Valid() && (index, life) in born && index in lives && lives[index] - life < GENERATIONS
      ensures Exists(Entity(index, life % GENERATIONS)) <==> index in alive && lives[index] == life
    {
      ValidIsExactUnlessWrapped(index, life);
      BornIsThere(rules, Whole(), index, life);
    }

    /** Past it, an old entity is valid again, with the generation of a later
        one, alive or not, and so at every wrap. */
    lemma ValidAgainAfterWrap(index: nat, life: nat, wraps: nat)
      requires Valid() && (index, life) in born && index in lives && lives[index] == life + wraps * GENERATIONS
      ensures Exists(Entity(index, life % GENERATIONS))
    {
      ValidByLives(index, life);
      MultipleHasNoRest(wraps);
    }

    /** Whatever entity is asked for, made or not: valid says yes exactly for an
        index of a page that was handed out, wherever the index is, with the
        generation it has. */
    lemma ValidWhereverItIs(e: Entity)
      requires Valid()
      ensures Exists(e) <==> e.index in lives && e.generation == lives[e.index] % GENERATIONS
      ensures e.index in lives <==> HasPage(owners, e.index)
      ensures e.index in lives <==> e.index in alive || e.index in limbo || e.index in Held(areas)
      ensures Bool(e.index in alive) + limbo[e.index] + Held(areas)[e.index] <= 1
    {
      PlacesOf(rules, Whole(), e.index);
    }

    /** So it is wrong about what is alive exactly for an index that somebody is
        to hand out, or that is on its way back, with the generation it has. */
    lemma ValidIsWrongForWhatIsHeld(e: Entity)
      requires Valid()
      ensures !(Exists(e) <==> e.index in alive && e.index in lives && e.generation == lives[e.index] % GENERATIONS)
          <==> (e.index in limbo || e.index in Held(areas)) && e.index in lives && e.generation == lives[e.index] % GENERATIONS
    {
      ValidWhereverItIs(e);
    }

    /** The next index of the page of a thread is valid with generation 0, though
        create did not make it yet. */
    lemma NextIsValidAlready(a: nat, t: nat)
      requires Valid() && HasShare(a, t) && areas[a].shares[t].next < areas[a].shares[t].end
      ensures var index := areas[a].shares[t].next;
        Exists(Entity(index, 0)) && index !in alive && forall life | (index, life) in born :: false
    {
      var index := areas[a].shares[t].next;
      NextOfPage(rules, Whole(), a, t);
      var rest: Share := areas[a].shares[t].(next := index + 1);
      HandOutIndex(rules, Whole(), a, t, rest, index);
      NeverBorn(rules, Whole(), index);
    }

    /** alive: the indices of the pages, less what is held. */
    method Alive() returns (count: int)
      requires Valid()
      ensures count == |alive| + |limbo|
    {
      count := |order| * PAGE_SIZE;
      for a := 0 to |areas|
        invariant count == |order| * PAGE_SIZE - |Together(AreasOf(areas)[..a])|
      {
        TogetherUpTo(AreasOf(areas), a);
        var held := CountHeld(areas[a]);
        count := count - held;
      }
      assert AreasOf(areas)[..|areas|] == AreasOf(areas);
      AllAreCounted(rules, Whole());
    }

    // --- create -------------------------------------------------------------

    /** create of an index in the area, for thread t: one that was given back,
        or else the next one of the page of the thread. looked: what the look
        at the free list found. None once all pages are taken. */
    method Create(a: nat, t: nat, looked: bool) returns (e: Option<Entity>)
      requires Valid() && HasShare(a, t)
      modifies this
      ensures Valid() && limbo == old(limbo)
      ensures e.None? ==> alive == old(alive) && born == old(born) && AllTaken(owners)
      ensures e.Some? ==> IsMade(old(alive), old(born), alive, born, lives, e.value) && Exists(e.value)
      ensures HasShare(a, t) && areas == old(areas)[a := areas[a]]
      ensures IsCreated(old(areas[a]), areas[a], old(owners), owners, a + 1, t, IndexOf(e))
    {
      ghost var before, owned := areas[a], owners;
      TakeChunk(a, t, looked);
      ghost var taken := areas[a];
      if areas[a].shares[t].left != 0 {
        var index := FromChunk(a, t, before);
        e := Some(Entity(index, generations[index]));
      } else {
        e := CreateNew(a, t);
        NextIsCreated(before, taken, areas[a], owned, owners, a + 1, t, IndexOf(e));
      }
    }

    /** create of an index nobody had before. */
    method CreateNew(a: nat, t: nat) returns (e: Option<Entity>)
      requires Valid() && HasShare(a, t)
      modifies this
      ensures Valid() && limbo == old(limbo)
      ensures e.None? ==> alive == old(alive) && born == old(born) && AllTaken(owners)
      ensures e.Some? ==> IsMade(old(alive), old(born), alive, born, lives, e.value) && Exists(e.value)
      ensures HasShare(a, t) && areas == old(areas)[a := areas[a]]
      ensures IsNextOne(old(areas[a]), areas[a], old(owners), owners, a + 1, t, IndexOf(e))
    {
      if areas[a].shares[t].next == areas[a].shares[t].end {
        var started := StartPage(a, t);
        if started.None? {
          return None;
        }
      }
      var index := FromPage(a, t);
      e := Some(Entity(index, 0));
      if old(areas[a].shares[t].next) == old(areas[a].shares[t].end) {
        FirstOfPage(old(areas), areas, old(owners), owners, a, t, index / PAGE_SIZE);
      }
    }

    /** take, if the thread has no index of a chunk left: what the share has of a
        chunk then is what the list of the area has no more, and nothing only if
        no chunk was left. */
    method TakeChunk(a: nat, t: nat, looked: bool)
      requires Valid() && HasShare(a, t)
      modifies this`areas
      ensures Valid() && HasShare(a, t)
      ensures areas == old(areas)[a := areas[a]] && IsTaken(old(areas[a]), areas[a], t)
    {
      var share := areas[a].shares[t];
      if share.left == 0 {
        assert share.chunk[..share.left] == [];
        var list, taken := Take(areas[a].free, looked);
        if taken.Some? {
          var more: Share := share.(chunk := taken.value.indices, left := taken.value.count);
          MoveChunk(a, t, more, list, taken.value.indices[..taken.value.count]);
        } else {
          MoveChunk(a, t, share, list, []);
        }
      }
    }

    method MoveChunk(a: nat, t: nat, more: Share, list: List, ghost moved: seq<nat>)
      requires Valid() && HasShare(a, t)
      requires more.next == areas[a].shares[t].next && more.end == areas[a].shares[t].end
      requires more.chunk[..more.left] == areas[a].shares[t].chunk[..areas[a].shares[t].left] + moved
      requires Listed(areas[a].free) == Listed(list) + moved
      modifies this`areas
      ensures Valid() && HasShare(a, t)
      ensures areas == old(areas)[a := old(areas[a]).(shares := old(areas[a].shares)[t := more], free := list)]
    {
      MoveKeeps(rules, Whole(), a, t, more, list, moved);
      areas := areas[a := areas[a].(shares := areas[a].shares[t := more], free := list)];
    }

    /** The last index of the chunk of the thread. before: the area before take. */
    method FromChunk(a: nat, t: nat, ghost before: Area) returns (index: nat)
      requires Valid() && HasShare(a, t) && areas[a].shares[t].left > 0
      requires t < |before.shares| && IsTaken(before, areas[a], t)
      modifies this`areas, this`alive, this`born
      ensures Valid() && HasPage(owners, index) && index in generations
      ensures IsMade(old(alive), old(born), alive, born, lives, Entity(index, generations[index]))
      ensures a < |areas| && areas == old(areas)[a := areas[a]] && IsHandedOut(before, areas[a], t, index)
    {
      var share := areas[a].shares[t];
      var rest: Share := share.(left := share.left - 1);
      index := share.chunk[share.left - 1];
      assert share.chunk[..share.left] == rest.chunk[..rest.left] + [index];
      TakenIsHandedOut(before, areas[a], areas[a].(shares := areas[a].shares[t := rest]), t);
      HandOut(a, t, rest, index);
    }

    /** The next index of the page of the thread, which nobody had before. */
    method FromPage(a: nat, t: nat) returns (index: nat)
      requires Valid() && HasShare(a, t) && areas[a].shares[t].next < areas[a].shares[t].end
      modifies this`areas, this`alive, this`born
      ensures Valid() && HasPage(owners, index) && index in generations && generations[index] == 0
      ensures IsMade(old(alive), old(born), alive, born, lives, Entity(index, 0))
      ensures var share := old(areas[a].shares[t]);
        && index == share.next
        && areas == old(areas)[a := old(areas[a]).(shares := old(areas[a].shares)[t := share.(next := share.next + 1)])]
    {
      var share := areas[a].shares[t];
      var rest: Share := share.(next := share.next + 1);
      index := share.next;
      NextOfPage(rules, Whole(), a, t);
      HandOut(a, t, rest, index);
    }

    /** An index goes from the share to whoever calls create. */
    method HandOut(a: nat, t: nat, rest: Share, index: nat)
      requires Valid() && HasShare(a, t)
      requires HeldByShare(areas[a].shares[t]) == HeldByShare(rest) + multiset{index}
      requires areas[a].shares[t].next <= rest.next && rest.end == areas[a].shares[t].end
      modifies this`areas, this`alive, this`born
      ensures Valid() && HasPage(owners, index) && index in generations
      ensures IsMade(old(alive), old(born), alive, born, lives, Entity(index, generations[index]))
      ensures areas == old(areas)[a := old(areas[a]).(shares := old(areas[a].shares)[t := rest])]
    {
      HandOutKeeps(rules, Whole(), a, t, rest, index);
      areas := areas[a := areas[a].(shares := areas[a].shares[t := rest])];
      alive := alive + {index};
      born := born + {(index, lives[index])};
    }

    /** makePage, up to what it hands out: the first page nobody has, from the
        cursor of the area on, past the last one at 0 again. */
    method FindPage(a: nat) returns (page: Option<nat>)
      requires a < |areas| && areas[a].cursor < pageLimit == |owners|
      ensures page.Some? ==> page.value < pageLimit && owners[page.value] == 0
      ensures page.Some? ==> forall p | areas[a].cursor <= p < page.value :: owners[p] != 0
      ensures page.Some? && page.value < areas[a].cursor ==>
                forall p | 0 <= p < page.value || areas[a].cursor <= p < pageLimit :: owners[p] != 0
      ensures page.None? ==> AllTaken(owners)
    {
      var at := areas[a].cursor;
      for tried := 0 to pageLimit
        invariant 0 <= at < pageLimit
        invariant at == areas[a].cursor + tried || at == areas[a].cursor + tried - pageLimit
        invariant forall p | areas[a].cursor <= p < pageLimit && p < areas[a].cursor + tried :: owners[p] != 0
        invariant forall p | 0 <= p < areas[a].cursor + tried - pageLimit && p < pageLimit :: owners[p] != 0
      {
        if owners[at] == 0 {
          return Some(at);
        }
        at := if at + 1 < pageLimit then at + 1 else 0;
      }
      page := None;
    }

    /** The page is the thread's, and its area looks at the one after it next. */
    ghost predicate HasNewPage(before: seq<Area>, owned: seq<nat>, a: nat, t: nat, page: nat)
      requires a < |before| && t < |before[a].shares|
      reads this
    {
      && areas == before[a := before[a].(cursor := NextPage(page, |owned|),
                                         shares := before[a].shares[t := before[a].shares[t].(
                                                     next := page * PAGE_SIZE, end := page * PAGE_SIZE + PAGE_SIZE)])]
      && page < |owned| && owners == owned[page := a + 1]
    }

    /** startPage: a page of its own for the thread, all of it new. */
    method StartPage(a: nat, t: nat) returns (started: Option<nat>)
      requires Valid() && HasShare(a, t) && areas[a].shares[t].next == areas[a].shares[t].end
      modifies this`owners, this`order, this`generations, this`areas, this`lives
      ensures Valid() && HasShare(a, t)
      ensures started.Some? ==> HasNewPage(old(areas), old(owners), a, t, started.value)
      ensures started.Some? ==> order == old(order) + [started.value] && IsNextFree(old(owners), old(areas[a].cursor), started.value)
      ensures started.None? ==> AllTaken(owners) && areas == old(areas) && owners == old(owners) && order == old(order)
    {
      CursorIsPage(rules, Whole(), a);
      started := FindPage(a);
      if started.None? {
        return;
      }
      InstallPage(a, t, started.value);
    }

    method InstallPage(a: nat, t: nat, page: nat)
      requires Valid() && HasShare(a, t) && page < pageLimit && owners[page] == 0
      requires areas[a].shares[t].next == areas[a].shares[t].end
      modifies this`owners, this`order, this`generations, this`areas, this`lives
      ensures Valid() && HasShare(a, t) && areas[a].shares[t].next < areas[a].shares[t].end
      ensures HasNewPage(old(areas), old(owners), a, t, page) && order == old(order) + [page]
    {
      var first := page * PAGE_SIZE;
      var z := NewZeros(first);
      var share: Share := areas[a].shares[t].(next := first, end := first + PAGE_SIZE);
      var cursor := if page + 1 < pageLimit then page + 1 else 0;
      InstallKeeps(rules, Whole(), a, t, page, cursor, z);
      areas := areas[a := areas[a].(cursor := cursor, shares := areas[a].shares[t := share])];
      generations, lives := generations + z, lives + z;
      order, owners := order + [page], owners[page := a + 1];
    }

    // --- destroy ------------------------------------------------------------

    /** destroy: the entity is over, and its index goes back to its area. */
    method Destroy(e: Entity)
      requires Valid() && e.index in alive && Exists(e)
      modifies this`generations, this`lives, this`alive, this`limbo, this`areas
      ensures Valid() && alive == old(alive) - {e.index} && !Exists(e) && limbo == old(limbo)
      ensures generations == old(generations)[e.index := (e.generation + 1) % GENERATIONS]
      ensures Returned(old(areas), areas, owners, [e.index])
    {
      EndLife(e.index);
      Return(e.index);
      assert old(limbo) + multiset{e.index} - multiset{e.index} == old(limbo);
    }

    /** The generation goes up; the index is on its way back. */
    method EndLife(i: nat)
      requires Valid() && i in alive
      modifies this`generations, this`lives, this`alive, this`limbo
      ensures Valid() && alive == old(alive) - {i} && limbo == old(limbo) + multiset{i}
      ensures i in old(generations) && generations == old(generations)[i := (old(generations)[i] + 1) % GENERATIONS]
    {
      EndKeeps(rules, Whole(), i);
      generations := generations[i := (generations[i] + 1) % GENERATIONS];
      lives := lives[i := lives[i] + 1];
      alive := alive - {i};
      limbo := limbo + multiset{i};
    }

    /** give, to the list of the area of the index. */
    method Return(i: nat)
      requires Valid() && i in limbo
      modifies this`areas, this`limbo
      ensures Valid() && limbo == old(limbo) - multiset{i} && Returned(old(areas), areas, owners, [i])
    {
      LimboIsOwned(rules, Whole(), i);
      var a := owners[i / PAGE_SIZE] - 1;
      var list := Give(areas[a].free, i);
      ghost var before := areas;
      GiveBack(a, list, multiset{i});
      ReturnedOne(before, areas, owners, i, a);
    }

    /** Indices on their way back are in the list of their area. */
    method GiveBack(a: nat, list: List, ghost indices: multiset<nat>)
      requires Valid() && a < |areas| && indices <= limbo
      requires multiset(Listed(list)) == multiset(Listed(areas[a].free)) + indices
      modifies this`areas, this`limbo
      ensures Valid() && limbo == old(limbo) - indices
      ensures areas == old(areas)[a := old(areas[a]).(free := list)]
    {
      ReturnKeeps(rules, Whole(), a, list, indices);
      areas := areas[a := areas[a].(free := list)];
      limbo := limbo - indices;
    }

    /** kill: the entity is over if it exists, its index still to be given back. */
    method Kill(e: Entity) returns (killed: bool)
      requires Valid() && (Exists(e) ==> e.index in alive)
      modifies this`generations, this`lives, this`alive, this`limbo
      ensures Valid() && killed == old(Exists(e)) && !Exists(e)
      ensures alive == old(alive) - if killed then {e.index} else {}
      ensures limbo == old(limbo) + if killed then multiset{e.index} else multiset{}
      ensures generations == if killed then old(generations)[e.index := (e.generation + 1) % GENERATIONS] else old(generations)
    {
      killed := Exists(e);
      if killed {
        EndLife(e.index);
      }
    }

    /** The next one of the indices that are to go. */
    method ReturnNext(indices: seq<nat>, k: nat, ghost before: seq<Area>, ghost all: multiset<nat>)
      requires Valid() && k < |indices| && multiset(indices) <= all && limbo == all - multiset(indices[..k])
      requires Returned(before, areas, owners, indices[..k])
      modifies this`areas, this`limbo
      ensures Valid() && limbo == all - multiset(indices[..k + 1]) && Returned(before, areas, owners, indices[..k + 1])
    {
      ghost var now := areas;
      OneMoreGoes(all, indices, k);
      Return(indices[k]);
      ReturnedNext(before, now, areas, owners, indices, k);
    }

    /** giveMany: what kill ended, to the lists it came from. */
    method GiveMany(indices: seq<nat>)
      requires Valid() && multiset(indices) <= limbo
      modifies this`areas, this`limbo
      ensures Valid() && limbo == old(limbo) - multiset(indices) && Returned(old(areas), areas, owners, indices)
    {
      for k := 0 to |indices|
        invariant Valid() && limbo == old(limbo) - multiset(indices[..k])
        invariant Returned(old(areas), areas, owners, indices[..k])
      {
        ReturnNext(indices, k, old(areas), old(limbo));
      }
      assert indices[..|indices|] == indices;
    }

    /** The pages of one area. */
    method GivePagesOf(a: nat, pages: seq<seq<nat>>)
      requires Valid() && a < |areas| && multiset(Ranks.Flat<nat>(pages)) <= limbo
      modifies this`areas, this`limbo
      ensures Valid() && limbo == old(limbo) - multiset(Ranks.Flat<nat>(pages))
      ensures |areas| == |old(areas)| && areas == old(areas)[a := old(areas[a]).(free := areas[a].free)]
      ensures Listed(areas[a].free) == old(Listed(areas[a].free)) + Ranks.Flat<nat>(pages)
    {
      var list := GivePages(areas[a].free, pages);
      GiveBack(a, list, multiset(Ranks.Flat<nat>(pages)));
    }

    /** The pages of the next area. */
    method GiveNextArea(a: nat, pages: seq<seq<nat>>, ghost before: seq<Area>, ghost all: multiset<nat>)
      requires Valid() && a < |areas| && Giving(before, all, areas, limbo, owners, pages, a)
      modifies this`areas, this`limbo
      ensures Valid() && Giving(before, all, areas, limbo, owners, pages, a + 1) && |areas| == |old(areas)|
    {
      ghost var was := areas;
      NextPagesAreThere(Gets(owners, pages), a, |areas|, all);
      GivePagesOf(a, PagesOfArea(owners, pages, a));
      GivenNext(before, was, areas, owners, pages, a);
    }

    /** One area after the other. */
    method GiveAreas(pages: seq<seq<nat>>, ghost before: seq<Area>, ghost all: multiset<nat>)
      requires Valid() && Giving(before, all, areas, limbo, owners, pages, 0)
      modifies this`areas, this`limbo
      ensures Valid() && |areas| == |before| && Giving(before, all, areas, limbo, owners, pages, |before|)
    {
      for a := 0 to |areas|
        invariant Valid() && |areas| == |before| && Giving(before, all, areas, limbo, owners, pages, a)
      {
        GiveNextArea(a, pages, before, all);
      }
    }

    /** giveMany of whole pages: the list of every area has the indices of its
        pages then, in their order, behind what it had. */
    method GiveManyPages(pages: seq<seq<nat>>)
      requires Valid() && multiset(Ranks.Flat<nat>(pages)) <= limbo
      modifies this`areas, this`limbo
      ensures Valid() && limbo == old(limbo) - multiset(Ranks.Flat<nat>(pages))
      ensures Given(old(areas), areas, owners, pages, |areas|)
    {
      ghost var was := Whole();
      StartsGiving(rules, was, pages);
      GiveAreas(pages, areas, limbo);
      EndsGiving(rules, was, areas, limbo, pages);
    }
  }
}
