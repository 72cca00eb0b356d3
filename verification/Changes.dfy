/**
 The changes of components that lists of commands record (scheduler.hpp), and
 what it means to do them one at a time, in the order of the lists.
 */
module Changes {
  import opened PageNumbers
  import opened Ranks
  import opened PageSort

  datatype Kind<!V> = Erase | Emplace(value: V) | Replace(value: V) | Modify(change: V -> V)

  /** valid: whether the entity of the change still exists, which no change changes. */
  datatype Change<!V> = Change(index: nat, valid: bool, column: nat, kind: Kind<V>)

  datatype Removed<V> = Removed(column: nat, index: nat, value: V)

  /** The components by column and index; those removed and added in columns
      with hooks, in order. */
  datatype Outcome<V> = Outcome(cells: map<(nat, nat), V>, removed: seq<Removed<V>>, added: seq<(nat, nat)>)

  /** Which columns have onRemove and onAdd hooks. */
  datatype Hooks = Hooks(onRemove: set<nat>, onAdd: set<nat>)

  predicate Erases<V>(o: Outcome<V>, c: Change<V>) { c.valid && c.kind.Erase? && (c.column, c.index) in o.cells }

  predicate Adds<V>(o: Outcome<V>, c: Change<V>) {
    c.valid && (c.kind.Emplace? || c.kind.Replace?) && (c.column, c.index) !in o.cells
  }

  function RemovedBy<V>(hooks: Hooks, o: Outcome<V>, c: Change<V>): (r: seq<Removed<V>>)
    ensures |r| <= 1
  {
    if Erases(o, c) && c.column in hooks.onRemove then [Removed(c.column, c.index, o.cells[(c.column, c.index)])] else []
  }

  function AddedBy<V>(hooks: Hooks, o: Outcome<V>, c: Change<V>): (r: seq<(nat, nat)>)
    ensures |r| <= 1
  {
    if Adds(o, c) && c.column in hooks.onAdd then [(c.column, c.index)] else []
  }

  function CellsAfter<V>(o: Outcome<V>, c: Change<V>): map<(nat, nat), V> {
    var at := (c.column, c.index);
    if !c.valid then o.cells
    else
      match c.kind
      case Erase => o.cells - {at}
      case Emplace(value) => if at in o.cells then o.cells else o.cells[at := value]
      case Replace(value) => o.cells[at := value]
      case Modify(change) => if at in o.cells then o.cells[at := change(o.cells[at])] else o.cells
  }

  function ApplyOne<V>(hooks: Hooks, o: Outcome<V>, c: Change<V>): Outcome<V> {
    Outcome(CellsAfter(o, c), o.removed + RemovedBy(hooks, o, c), o.added + AddedBy(hooks, o, c))
  }

  /** All changes, in order. */
  function Apply<V>(hooks: Hooks, o: Outcome<V>, changes: seq<Change<V>>): Outcome<V> {
    if changes == [] then o
    else ApplyOne(hooks, Apply(hooks, o, changes[..|changes| - 1]), changes[|changes| - 1])
  }

  // --- one page at a time ---------------------------------------------------

  /** The changes of a page, in their order. */
  function OfPage<V>(changes: seq<Change<V>>, page: int): seq<Change<V>> {
    if changes == [] then []
    else
      OfPage(changes[..|changes| - 1], page) +
      if PageOf(changes[|changes| - 1].index) == page then [changes[|changes| - 1]] else []
  }

  function Indices<V>(changes: seq<Change<V>>): (i: seq<nat>)
    ensures |i| == |changes|
  {
    seq(|changes|, k requires 0 <= k < |changes| => changes[k].index)
  }

  /** The changes at some places. */
  function AtPlaces<V>(changes: seq<Change<V>>, places: seq<nat>): seq<Change<V>>
    requires forall k | 0 <= k < |places| :: places[k] < |changes|
  {
    seq(|places|, k requires 0 <= k < |places| => changes[places[k]])
  }

  /** What the sort gives a thread for a page is the changes of the page. */
  lemma {:induction false} PlacesAreOfPage<V>(changes: seq<Change<V>>, page: nat)
    ensures var places := Positions(PagesOf(Indices(changes)), page);
      && (forall k | 0 <= k < |places| :: places[k] < |changes|)
      && AtPlaces(changes, places) == OfPage(changes, page)
  {
    var pages := PagesOf(Indices(changes));
    if changes != [] {
      var init := changes[..|changes| - 1];
      PlacesAreOfPage(init, page);
      assert PagesOf(Indices(init)) == pages[..|pages| - 1];
      forall k | 0 <= k < |Positions(pages, page)| ensures Positions(pages, page)[k] < |changes| {
        PlaceIsRank(pages, page, k);
      }
      var places := Positions(pages[..|pages| - 1], page);
      assert AtPlaces(init, places) == AtPlaces(changes, places);
    }
  }

  ghost predicate SameOn<V>(a: Outcome<V>, b: Outcome<V>, page: int) {
    forall at: (nat, nat) | PageOf(at.1) == page ::
      (at in a.cells <==> at in b.cells) && (at in a.cells ==> a.cells[at] == b.cells[at])
  }

  /** What was removed or added in a page. */
  function RemovedIn<V>(removed: seq<Removed<V>>, page: int): seq<Removed<V>> {
    if removed == [] then []
    else RemovedIn(removed[..|removed| - 1], page) +
         if PageOf(removed[|removed| - 1].index) == page then [removed[|removed| - 1]] else []
  }

  function AddedIn(added: seq<(nat, nat)>, page: int): seq<(nat, nat)> {
    if added == [] then []
    else AddedIn(added[..|added| - 1], page) + if PageOf(added[|added| - 1].1) == page then [added[|added| - 1]] else []
  }

  /** The change of a page does to it what it does alone. */
  lemma OneOnPage<V>(hooks: Hooks, a: Outcome<V>, b: Outcome<V>, c: Change<V>, page: int)
    requires SameOn(a, b, page) && PageOf(c.index) == page
    ensures SameOn(ApplyOne(hooks, a, c), ApplyOne(hooks, b, c), page)
  {
    var at := (c.column, c.index);
    assert (at in a.cells <==> at in b.cells) && (at in a.cells ==> a.cells[at] == b.cells[at]);
  }

  /** The change of another page leaves it alone. */
  lemma OneElsewhere<V>(hooks: Hooks, o: Outcome<V>, c: Change<V>, page: int)
    requires PageOf(c.index) != page
    ensures SameOn(ApplyOne(hooks, o, c), o, page)
  {}

  lemma RemovedAppend<V>(log: seq<Removed<V>>, more: seq<Removed<V>>, page: int)
    requires |more| <= 1
    ensures RemovedIn(log + more, page) ==
            RemovedIn(log, page) + if |more| == 1 && PageOf(more[0].index) == page then more else []
  {
    if more == [] {
      assert log + more == log;
    } else {
      assert (log + more)[..|log|] == log && more == [more[0]];
    }
  }

  lemma AddedAppend(log: seq<(nat, nat)>, more: seq<(nat, nat)>, page: int)
    requires |more| <= 1
    ensures AddedIn(log + more, page) == AddedIn(log, page) + if |more| == 1 && PageOf(more[0].1) == page then more else []
  {
    if more == [] {
      assert log + more == log;
    } else {
      assert (log + more)[..|log|] == log && more == [more[0]];
    }
  }

  lemma LogsElsewhere<V>(hooks: Hooks, o: Outcome<V>, c: Change<V>, page: int)
    requires PageOf(c.index) != page
    ensures RemovedIn(ApplyOne(hooks, o, c).removed, page) == RemovedIn(o.removed, page)
    ensures AddedIn(ApplyOne(hooks, o, c).added, page) == AddedIn(o.added, page)
  {
    RemovedAppend(o.removed, RemovedBy(hooks, o, c), page);
    AddedAppend(o.added, AddedBy(hooks, o, c), page);
  }

  lemma LogsOnPage<V>(hooks: Hooks, a: Outcome<V>, b: Outcome<V>, c: Change<V>, page: int)
    requires SameOn(a, b, page) && PageOf(c.index) == page
    requires RemovedIn(a.removed, page) == RemovedIn(b.removed, page) && AddedIn(a.added, page) == AddedIn(b.added, page)
    ensures RemovedIn(ApplyOne(hooks, a, c).removed, page) == RemovedIn(ApplyOne(hooks, b, c).removed, page)
    ensures AddedIn(ApplyOne(hooks, a, c).added, page) == AddedIn(ApplyOne(hooks, b, c).added, page)
  {
    var at := (c.column, c.index);
    assert (at in a.cells <==> at in b.cells) && (at in a.cells ==> a.cells[at] == b.cells[at]);
    RemovedAppend(a.removed, RemovedBy(hooks, a, c), page);
    RemovedAppend(b.removed, RemovedBy(hooks, b, c), page);
    AddedAppend(a.added, AddedBy(hooks, a, c), page);
    AddedAppend(b.added, AddedBy(hooks, b, c), page);
  }

  lemma SameThrough<V>(a: Outcome<V>, b: Outcome<V>, c: Outcome<V>, page: int)
    requires SameOn(a, b, page) && SameOn(b, c, page)
    ensures SameOn(a, c, page)
  {}

  lemma ApplyOfPage<V>(hooks: Hooks, o: Outcome<V>, changes: seq<Change<V>>, page: int)
    requires changes != []
    ensures var c, init := changes[|changes| - 1], OfPage(changes[..|changes| - 1], page);
      Apply(hooks, o, OfPage(changes, page)) ==
      if PageOf(c.index) == page then ApplyOne(hooks, Apply(hooks, o, init), c) else Apply(hooks, o, init)
  {
    var c, init := changes[|changes| - 1], OfPage(changes[..|changes| - 1], page);
    assert PageOf(c.index) == page ==> (init + [c])[..|init|] == init;
    assert PageOf(c.index) != page ==> OfPage(changes, page) == init;
  }

  /** In a page, all changes in order do what those of the page do alone:
      pages may be done in any order, and next to each other. */
  lemma {:induction false} PagewiseIsInOrder<V>(hooks: Hooks, o: Outcome<V>, changes: seq<Change<V>>, page: int)
    ensures var all, alone := Apply(hooks, o, changes), Apply(hooks, o, OfPage(changes, page));
      && SameOn(all, alone, page)
      && RemovedIn(all.removed, page) == RemovedIn(alone.removed, page)
      && AddedIn(all.added, page) == AddedIn(alone.added, page)
  {
    if changes != [] {
      var init, c := changes[..|changes| - 1], changes[|changes| - 1];
      PagewiseIsInOrder(hooks, o, init, page);
      var a, b := Apply(hooks, o, init), Apply(hooks, o, OfPage(init, page));
      ApplyOfPage(hooks, o, changes, page);
      if PageOf(c.index) == page {
        OneOnPage(hooks, a, b, c, page);
        LogsOnPage(hooks, a, b, c, page);
      } else {
        OneElsewhere(hooks, a, c, page);
        LogsElsewhere(hooks, a, c, page);
        SameThrough(ApplyOne(hooks, a, c), a, b, page);
      }
    }
  }

  /** And the changes of a page leave every other page as it was. */
  lemma {:induction false} PageStaysApart<V>(hooks: Hooks, o: Outcome<V>, changes: seq<Change<V>>, page: int, other: int)
    requires page != other
    ensures SameOn(Apply(hooks, o, OfPage(changes, page)), o, other)
  {
    if changes != [] {
      var init, c := OfPage(changes[..|changes| - 1], page), changes[|changes| - 1];
      PageStaysApart(hooks, o, changes[..|changes| - 1], page, other);
      ApplyOfPage(hooks, o, changes, page);
      if PageOf(c.index) == page {
        OneElsewhere(hooks, Apply(hooks, o, init), c, other);
        SameThrough(ApplyOne(hooks, Apply(hooks, o, init), c), Apply(hooks, o, init), o, other);
      }
    }
  }

  /** applySpread: what the sort gives a thread for page i does to the page
      what all lists in order do to it. */
  lemma SpreadIsInOrder<V>(hooks: Hooks, o: Outcome<V>, changes: seq<Change<V>>, order: seq<nat>, offsets: seq<nat>,
                           pages: seq<nat>, i: nat)
    requires PagesAre(order, offsets, pages, Indices(changes)) && i < |pages|
    ensures offsets[i] <= offsets[i + 1] <= |order|
    ensures var places := order[offsets[i]..offsets[i + 1]];
      && (forall k | 0 <= k < |places| :: places[k] < |changes|)
      && var all, alone := Apply(hooks, o, changes), Apply(hooks, o, AtPlaces(changes, places));
         && SameOn(all, alone, pages[i])
         && RemovedIn(all.removed, pages[i]) == RemovedIn(alone.removed, pages[i])
         && AddedIn(all.added, pages[i]) == AddedIn(alone.added, pages[i])
  {
    PlacesAreOfPage(changes, pages[i]);
    PagewiseIsInOrder(hooks, o, changes, pages[i]);
  }
}
