/**
 The whole of applySpread (scheduler.hpp): the pages one after the other in any
 order, or all at the same time, come to what all lists come to in order.
 */
module Applications {
  import opened Changes
  import opened Lists
  import opened PageNumbers
  import opened PageSort
  import opened Ranks

  /** All components are the same, and what was removed and added in each page
      is the same in the same order. */
  ghost predicate SameOutcome<V(!new)>(a: Outcome<V>, b: Outcome<V>) {
    a.cells == b.cells && forall page :: SameLogs(a, b, page)
  }

  ghost predicate SameLogs<V>(a: Outcome<V>, b: Outcome<V>, page: int) {
    RemovedIn(a.removed, page) == RemovedIn(b.removed, page) && AddedIn(a.added, page) == AddedIn(b.added, page)
  }

  /** Nothing exists at an index without a page. */
  predicate OnlyOnPages<V(!new)>(changes: seq<Change<V>>) {
    forall k | 0 <= k < |changes| && PageOf(changes[k].index) == NO_PAGE :: !changes[k].valid
  }

  lemma {:induction false} NothingWithoutPage<V(!new)>(hooks: Hooks, o: Outcome<V>, changes: seq<Change<V>>)
    requires OnlyOnPages(changes)
    ensures Apply(hooks, o, OfPage(changes, NO_PAGE)) == o
  {
    if changes != [] {
      NothingWithoutPage(hooks, o, changes[..|changes| - 1]);
      ApplyOfPage(hooks, o, changes, NO_PAGE);
      assert o.removed + [] == o.removed && o.added + [] == o.added;
    }
  }

  lemma SamePage<V(!new)>(hooks: Hooks, o: Outcome<V>, changes: seq<Change<V>>, mixed: seq<Change<V>>, page: int)
    requires OnlyOnPages(changes) && OnlyOnPages(mixed)
    requires page != NO_PAGE ==> OfPage(mixed, page) == OfPage(changes, page)
    ensures var a, b := Apply(hooks, o, mixed), Apply(hooks, o, changes); SameOn(a, b, page) && SameLogs(a, b, page)
  {
    PagewiseIsInOrder(hooks, o, changes, page);
    PagewiseIsInOrder(hooks, o, mixed, page);
    NothingWithoutPage(hooks, o, changes);
    NothingWithoutPage(hooks, o, mixed);
  }

  lemma SameCells<V(!new)>(a: Outcome<V>, b: Outcome<V>)
    requires forall page :: SameOn(a, b, page)
    ensures a.cells == b.cells
  {
    forall at: (nat, nat) ensures at in a.cells <==> at in b.cells {
      assert SameOn(a, b, PageOf(at.1));
    }
    forall at: (nat, nat) | at in a.cells ensures a.cells[at] == b.cells[at] {
      assert SameOn(a, b, PageOf(at.1));
    }
  }

  /** Threads that do the changes of every page in their order, in whatever way
      those of different pages come between each other, end as all lists in
      order do. */
  lemma EveryMixIsInOrder<V(!new)>(hooks: Hooks, o: Outcome<V>, changes: seq<Change<V>>, mixed: seq<Change<V>>)
    requires OnlyOnPages(changes) && OnlyOnPages(mixed)
    requires forall page | page != NO_PAGE :: OfPage(mixed, page) == OfPage(changes, page)
    ensures SameOutcome(Apply(hooks, o, mixed), Apply(hooks, o, changes))
  {
    var a, b := Apply(hooks, o, mixed), Apply(hooks, o, changes);
    forall page ensures SameOn(a, b, page) && SameLogs(a, b, page) {
      SamePage(hooks, o, changes, mixed, page);
    }
    SameCells(a, b);
  }

  // --- page by page ---------------------------------------------------------

  /** The changes of a page done after those of the pages before it, from what
      those left. */
  function PageByPage<V>(hooks: Hooks, o: Outcome<V>, changes: seq<Change<V>>, pages: seq<nat>): Outcome<V> {
    if pages == [] then o
    else Apply(hooks, PageByPage(hooks, o, changes, pages[..|pages| - 1]), OfPage(changes, pages[|pages| - 1]))
  }

  /** The changes in the order they are done then. */
  function InTurns<V>(changes: seq<Change<V>>, pages: seq<nat>): seq<Change<V>> {
    if pages == [] then [] else InTurns(changes, pages[..|pages| - 1]) + OfPage(changes, pages[|pages| - 1])
  }

  lemma {:induction false} ApplyBoth<V>(hooks: Hooks, o: Outcome<V>, a: seq<Change<V>>, b: seq<Change<V>>)
    ensures Apply(hooks, o, a + b) == Apply(hooks, Apply(hooks, o, a), b)
  {
    if b == [] {
      assert a + b == a;
    } else {
      ApplyBoth(hooks, o, a, b[..|b| - 1]);
      assert (a + b)[..|a + b| - 1] == a + b[..|b| - 1];
    }
  }

  lemma {:induction false} TurnsArePageByPage<V>(hooks: Hooks, o: Outcome<V>, changes: seq<Change<V>>, pages: seq<nat>)
    ensures Apply(hooks, o, InTurns(changes, pages)) == PageByPage(hooks, o, changes, pages)
  {
    if pages != [] {
      var init := pages[..|pages| - 1];
      TurnsArePageByPage(hooks, o, changes, init);
      ApplyBoth(hooks, o, InTurns(changes, init), OfPage(changes, pages[|pages| - 1]));
    }
  }

  lemma {:induction false} OfPageOfBoth<V>(a: seq<Change<V>>, b: seq<Change<V>>, page: int)
    ensures OfPage(a + b, page) == OfPage(a, page) + OfPage(b, page)
  {
    if b == [] {
      assert a + b == a;
    } else {
      OfPageOfBoth(a, b[..|b| - 1], page);
      assert (a + b)[..|a + b| - 1] == a + b[..|b| - 1];
    }
  }

  lemma {:induction false} OfPageTwice<V>(changes: seq<Change<V>>, page: int, other: int)
    ensures OfPage(OfPage(changes, page), other) == if other == page then OfPage(changes, page) else []
  {
    if changes != [] {
      var init, c := changes[..|changes| - 1], changes[|changes| - 1];
      OfPageTwice(init, page, other);
      if PageOf(c.index) == page {
        OfPageOfBoth(OfPage(init, page), [c], other);
        assert OfPage([c], other) == if page == other then [c] else [];
      } else {
        assert OfPage(changes, page) == OfPage(init, page);
      }
    }
  }

  lemma LastPage(pages: seq<nat>, page: int)
    requires Once(pages) && pages != []
    ensures var init, last := pages[..|pages| - 1], pages[|pages| - 1];
      Once(init) && (page in pages <==> page in init || page == last) && (page == last ==> page !in init)
  {
    assert pages == pages[..|pages| - 1] + [pages[|pages| - 1]];
  }

  lemma {:induction false} OfTurns<V>(changes: seq<Change<V>>, pages: seq<nat>, page: int)
    requires Once(pages)
    ensures OfPage(InTurns(changes, pages), page) == if page in pages then OfPage(changes, page) else []
  {
    if pages != [] {
      var init, last := pages[..|pages| - 1], pages[|pages| - 1];
      OfTurns(changes, init, page);
      OfPageOfBoth(InTurns(changes, init), OfPage(changes, last), page);
      OfPageTwice(changes, last, page);
      LastPage(pages, page);
    }
  }

  lemma {:induction false} NoneOfOthers<V>(changes: seq<Change<V>>, page: int)
    requires forall k | 0 <= k < |changes| :: PageOf(changes[k].index) != page
    ensures OfPage(changes, page) == []
  {
    if changes != [] {
      NoneOfOthers(changes[..|changes| - 1], page);
    }
  }

  lemma {:induction false} TurnsAreOnPages<V(!new)>(changes: seq<Change<V>>, pages: seq<nat>)
    ensures OnlyOnPages(InTurns(changes, pages))
  {
    if pages != [] {
      TurnsAreOnPages(changes, pages[..|pages| - 1]);
      OfPageIsOf(changes, pages[|pages| - 1]);
    }
  }

  lemma {:induction false} OfPageIsOf<V>(changes: seq<Change<V>>, page: int)
    ensures forall k | 0 <= k < |OfPage(changes, page)| :: PageOf(OfPage(changes, page)[k].index) == page
  {
    if changes != [] {
      OfPageIsOf(changes[..|changes| - 1], page);
    }
  }

  /** Every page that is hit once, in any order, each from what the ones before
      it left: all lists in order. */
  lemma PageByPageIsInOrder<V(!new)>(hooks: Hooks, o: Outcome<V>, changes: seq<Change<V>>, pages: seq<nat>)
    requires OnlyOnPages(changes) && Once(pages)
    requires forall k | 0 <= k < |changes| && PageOf(changes[k].index) != NO_PAGE :: PageOf(changes[k].index) in pages
    ensures SameOutcome(PageByPage(hooks, o, changes, pages), Apply(hooks, o, changes))
  {
    forall page | page != NO_PAGE ensures OfPage(InTurns(changes, pages), page) == OfPage(changes, page) {
      OfTurns(changes, pages, page);
      if page !in pages {
        NoneOfOthers(changes, page);
      }
    }
    TurnsAreOnPages(changes, pages);
    EveryMixIsInOrder(hooks, o, changes, InTurns(changes, pages));
    TurnsArePageByPage(hooks, o, changes, pages);
  }

  // --- what the sort gives the threads --------------------------------------

  predicate IsPart<V>(changes: seq<Change<V>>, order: seq<nat>, offsets: seq<nat>, i: nat) {
    && i + 1 < |offsets| && offsets[i] <= offsets[i + 1] <= |order|
    && forall k | offsets[i] <= k < offsets[i + 1] :: order[k] < |changes|
  }

  /** page(i) of the sort: the changes its places point at. */
  function Part<V>(changes: seq<Change<V>>, order: seq<nat>, offsets: seq<nat>, i: nat): seq<Change<V>>
    requires IsPart(changes, order, offsets, i)
  {
    AtPlaces(changes, order[offsets[i]..offsets[i + 1]])
  }

  /** The threads take the pages of the sort in this order. */
  function Spread<V>(hooks: Hooks, o: Outcome<V>, changes: seq<Change<V>>, order: seq<nat>, offsets: seq<nat>,
                     turns: seq<nat>): Outcome<V>
    requires forall k | 0 <= k < |turns| :: IsPart(changes, order, offsets, turns[k])
  {
    if turns == [] then o
    else
      var before := Spread(hooks, o, changes, order, offsets, turns[..|turns| - 1]);
      Apply(hooks, before, Part(changes, order, offsets, turns[|turns| - 1]))
  }

  lemma PartIsPage<V>(changes: seq<Change<V>>, order: seq<nat>, offsets: seq<nat>, pages: seq<nat>, i: nat)
    requires PagesAre(order, offsets, pages, Indices(changes)) && i < |pages|
    ensures IsPart(changes, order, offsets, i) && Part(changes, order, offsets, i) == OfPage(changes, pages[i])
  {
    var page := pages[i];
    PlacesAreOfPage(changes, page);
    var places := order[offsets[i]..offsets[i + 1]];
    forall k | offsets[i] <= k < offsets[i + 1] ensures order[k] < |changes| {
      assert order[k] == places[k - offsets[i]];
    }
  }

  /** Which pages these turns are. */
  function PagesAt(pages: seq<nat>, turns: seq<nat>): (p: seq<nat>)
    requires forall k | 0 <= k < |turns| :: turns[k] < |pages|
    ensures |p| == |turns| && forall k | 0 <= k < |p| :: p[k] == pages[turns[k]]
  {
    seq(|turns|, k requires 0 <= k < |turns| => pages[turns[k]])
  }

  lemma {:induction false} SpreadIsPageByPage<V>(
    hooks: Hooks, o: Outcome<V>, changes: seq<Change<V>>, order: seq<nat>, offsets: seq<nat>, pages: seq<nat>, turns: seq<nat>)
    requires PagesAre(order, offsets, pages, Indices(changes)) && forall k | 0 <= k < |turns| :: turns[k] < |pages|
    ensures forall k | 0 <= k < |turns| :: IsPart(changes, order, offsets, turns[k])
    ensures Spread(hooks, o, changes, order, offsets, turns) == PageByPage(hooks, o, changes, PagesAt(pages, turns))
  {
    forall k | 0 <= k < |turns| ensures IsPart(changes, order, offsets, turns[k]) {
      PartIsPage(changes, order, offsets, pages, turns[k]);
    }
    if turns != [] {
      var init, last := turns[..|turns| - 1], turns[|turns| - 1];
      SpreadIsPageByPage(hooks, o, changes, order, offsets, pages, init);
      PartIsPage(changes, order, offsets, pages, last);
      assert PagesAt(pages, turns)[..|init|] == PagesAt(pages, init);
    }
  }

  lemma EveryPageHasATurn(pages: seq<nat>, turns: seq<nat>, page: nat)
    requires (forall k | 0 <= k < |turns| :: turns[k] < |pages|) && forall i | 0 <= i < |pages| :: i in turns
    requires page in pages
    ensures page in PagesAt(pages, turns)
  {
    var i :| 0 <= i < |pages| && pages[i] == page;
    assert i in turns;
    var k :| 0 <= k < |turns| && turns[k] == i;
    assert PagesAt(pages, turns)[k] == page;
  }

  /** The whole of applySpread: with the pages and places of the sort, each
      page taken once, in whatever order, leaves what all lists in order leave. */
  lemma SpreadEndsAsInOrder<V(!new)>(
    hooks: Hooks, o: Outcome<V>, changes: seq<Change<V>>, order: seq<nat>, offsets: seq<nat>, pages: seq<nat>, turns: seq<nat>)
    requires OnlyOnPages(changes) && PagesHit(pages, Indices(changes)) && PagesAre(order, offsets, pages, Indices(changes))
    requires Once(turns) && (forall k | 0 <= k < |turns| :: turns[k] < |pages|) && forall i | 0 <= i < |pages| :: i in turns
    ensures forall k | 0 <= k < |turns| :: IsPart(changes, order, offsets, turns[k])
    ensures SameOutcome(Spread(hooks, o, changes, order, offsets, turns), Apply(hooks, o, changes))
  {
    SpreadIsPageByPage(hooks, o, changes, order, offsets, pages, turns);
    var taken := PagesAt(pages, turns);
    forall k | 0 <= k < |changes| && PageOf(changes[k].index) != NO_PAGE ensures PageOf(changes[k].index) in taken {
      var page: nat := PageOf(changes[k].index);
      assert PagesOf(Indices(changes))[k] == page;
      EveryPageHasATurn(pages, turns, page);
    }
    forall i, j | 0 <= i < j < |taken| ensures taken[i] != taken[j] {
      assert turns[i] != turns[j];
    }
    PageByPageIsInOrder(hooks, o, changes, taken);
  }
  // --- all of it ------------------------------------------------------------

  /** What the sort is given of the lists. */
  function IndicesOf<V>(lists: seq<seq<Change<V>>>): (i: seq<seq<nat>>)
    ensures |i| == |lists| && forall k | 0 <= k < |i| :: i[k] == Indices(lists[k])
  {
    seq(|lists|, k requires 0 <= k < |lists| => Indices(lists[k]))
  }

  lemma {:induction false} FlatIndices<V>(lists: seq<seq<Change<V>>>)
    ensures Flat(IndicesOf(lists)) == Indices(Flat(lists))
  {
    if lists != [] {
      var init := lists[..|lists| - 1];
      FlatIndices(init);
      assert IndicesOf(lists)[..|init|] == IndicesOf(init);
    }
  }

  /** The next page that a thread takes. */
  lemma OnePageMore<V>(hooks: Hooks, o: Outcome<V>, changes: seq<Change<V>>, order: seq<nat>, offsets: seq<nat>,
                       turns: seq<nat>, i: nat)
    requires (forall k | 0 <= k < |turns| :: IsPart(changes, order, offsets, turns[k])) && IsPart(changes, order, offsets, i)
    ensures forall k | 0 <= k < |turns + [i]| :: IsPart(changes, order, offsets, (turns + [i])[k])
    ensures Spread(hooks, o, changes, order, offsets, turns + [i]) ==
            Apply(hooks, Spread(hooks, o, changes, order, offsets, turns), Part(changes, order, offsets, i))
  {
    assert (turns + [i])[..|turns|] == turns;
  }

  function Below(count: nat): (all: set<nat>)
    ensures forall i: nat :: i in all <==> i < count
  {
    if count == 0 then {} else Below(count - 1) + {count - 1}
  }

  /** Pages taken and pages to go. */
  ghost predicate Taken(turns: seq<nat>, todo: set<nat>, pages: nat) {
    && Once(turns) && (forall k | 0 <= k < |turns| :: turns[k] < pages && turns[k] !in todo)
    && (forall i | i in todo :: i < pages) && (forall i | 0 <= i < pages && i !in todo :: i in turns)
  }

  /** The pages of the sort, whichever a thread takes next. */
  method ApplyPages<V(!new)>(hooks: Hooks, o: Outcome<V>, changes: seq<Change<V>>, order: seq<nat>, offsets: seq<nat>, pages: seq<nat>)
    returns (r: Outcome<V>)
    requires OnlyOnPages(changes) && PagesHit(pages, Indices(changes)) && PagesAre(order, offsets, pages, Indices(changes))
    ensures SameOutcome(r, Apply(hooks, o, changes))
  {
    r := o;
    var todo := Below(|pages|);
    ghost var turns: seq<nat> := [];
    while todo != {}
      invariant Taken(turns, todo, |pages|)
      invariant forall k | 0 <= k < |turns| :: IsPart(changes, order, offsets, turns[k])
      invariant r == Spread(hooks, o, changes, order, offsets, turns)
      decreases todo
    {
      var i :| i in todo;
      PartIsPage(changes, order, offsets, pages, i);
      OnePageMore(hooks, o, changes, order, offsets, turns, i);
      r := Apply(hooks, r, Part(changes, order, offsets, i));
      todo, turns := todo - {i}, turns + [i];
    }
    SpreadEndsAsInOrder(hooks, o, changes, order, offsets, pages, turns);
  }

  /** applySpread: counted by threads that race, in order on one thread if there
      is no more than a page, otherwise sorted, and page by page. */
  method ApplySpread<V(!new)>(hooks: Hooks, o: Outcome<V>, lists: seq<seq<Change<V>>>, sort: PageSort, race: seq<nat>,
                              useNoted: bool)
    returns (r: Outcome<V>)
    requires sort.numbers == map[] && OnlyOnPages(Flat(lists))
    modifies sort
    ensures sort.numbers == map[] && SameOutcome(r, Apply(hooks, o, Flat(lists)))
  {
    FlatIndices(lists);
    sort.CountItems(IndicesOf(lists), race);
    if |sort.pages| <= 1 {
      sort.Uncount();
      r := Apply(hooks, o, Flat(lists));
    } else {
      sort.Place(useNoted);
      r := ApplyPages(hooks, o, Flat(lists), sort.order[..], sort.offsets, sort.pages);
    }
  }
}
