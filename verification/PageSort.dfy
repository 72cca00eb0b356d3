/**
 The counting sort of items by the page of their entity (world.hpp): what is
 left of count after its threads, place and uncount. Items are their indices,
 and a pointer to one is its place among all.
 */
module PageSort {
  import opened Options
  import opened PageNumbers
  import opened Ranks

  const SEGMENT: nat := 0x1_0000
  const SCAN_SPREAD: nat := 8
  const NO_PAGE_NUMBER: nat := 0xFFFF_FFFF

  function PagesOf(indices: seq<nat>): (p: seq<int>)
    ensures |p| == |indices|
  {
    seq(|indices|, k requires 0 <= k < |indices| => PageOf(indices[k]))
  }

  predicate Ascending(pages: seq<nat>) { forall i, j | 0 <= i < j < |pages| :: pages[i] < pages[j] }

  /** A set of pages in ascending order is one list. */
  lemma {:induction false} AscendingIsUnique(a: seq<nat>, b: seq<nat>)
    requires Ascending(a) && Ascending(b) && forall p: nat :: p in a <==> p in b
    ensures a == b
  {
    assert a == [] || a[0] in b;
    assert b == [] || b[0] in a;
    if a != [] && b != [] {
      assert a[0] == b[0];
      forall p: nat ensures p in a[1..] <==> p in b[1..] {
        assert a == [a[0]] + a[1..] && b == [b[0]] + b[1..];
        assert p in a <==> p in b;
      }
      AscendingIsUnique(a[1..], b[1..]);
    }
  }

  /** Every page has a number of its own. */
  predicate Different(found: seq<Found>, used: nat) {
    && (forall i | 0 <= i < |found| :: found[i].number < used)
    && (forall i, j | 0 <= i < j < |found| :: found[i].number != found[j].number)
  }

  /** How many items the first i pages have: where those of page i start. */
  function StartOf(found: seq<Found>, items: seq<nat>, i: nat): nat
    requires i <= |found| && Different(found, |items|)
  {
    if i == 0 then 0 else StartOf(found, items, i - 1) + items[found[i - 1].number]
  }

  lemma {:induction false} StartsAscend(found: seq<Found>, items: seq<nat>, i: nat, j: nat)
    requires i < j <= |found| && Different(found, |items|)
    ensures StartOf(found, items, i) + items[found[i].number] <= StartOf(found, items, j)
  {
    if i < j - 1 {
      StartsAscend(found, items, i, j - 1);
    }
  }

  /** How many items every number has. */
  function ItemsOf(nums: seq<int>, used: nat): (items: seq<nat>)
    ensures |items| == used && forall n | 0 <= n < used :: items[n] == Times(nums, n)
  {
    seq(used, n requires 0 <= n < used => Times(nums, n))
  }

  /** The numbers of the pages found, and only they, have items. */
  ghost predicate Numbering(found: seq<Found>, nums: seq<int>, used: nat) {
    && Different(found, used)
    && (forall j | 0 <= j < |nums| :: nums[j] == NO_PAGE || exists i :: 0 <= i < |found| && found[i].number == nums[j])
  }

  /** base: where the items of a number start. */
  ghost predicate Based(base: seq<nat>, found: seq<Found>, items: seq<nat>)
    requires Different(found, |items|)
  {
    && |base| == |items|
    && (forall i {:trigger base[found[i].number]} | 0 <= i < |found| :: base[found[i].number] == StartOf(found, items, i))
  }

  /** Where the item j goes. */
  function PlaceOf(base: seq<nat>, nums: seq<int>, j: nat): nat
    requires j < |nums| && 0 <= nums[j] < |base|
  {
    base[nums[j]] + Times(nums[..j], nums[j])
  }

  lemma PlaceIsInPage(base: seq<nat>, found: seq<Found>, nums: seq<int>, used: nat, j: nat) returns (i: nat)
    requires Numbering(found, nums, used) && Based(base, found, ItemsOf(nums, used)) && j < |nums| && nums[j] != NO_PAGE
    ensures i < |found| && found[i].number == nums[j] < used
    ensures var start := StartOf(found, ItemsOf(nums, used), i);
            start <= PlaceOf(base, nums, j) < start + ItemsOf(nums, used)[nums[j]]
  {
    i :| 0 <= i < |found| && found[i].number == nums[j];
    RankIsPlace(nums, j);
  }

  lemma PlaceIsInOrder(base: seq<nat>, found: seq<Found>, nums: seq<int>, used: nat, j: nat)
    requires Numbering(found, nums, used) && Based(base, found, ItemsOf(nums, used)) && j < |nums| && nums[j] != NO_PAGE
    ensures 0 <= nums[j] < |base| && PlaceOf(base, nums, j) < StartOf(found, ItemsOf(nums, used), |found|)
  {
    var i := PlaceIsInPage(base, found, nums, used, j);
    StartsAscend(found, ItemsOf(nums, used), i, |found|);
  }

  /** No two items go to the same place, whichever segment they are of: the
      threads of place write apart. */
  lemma PlacesAreApart(base: seq<nat>, found: seq<Found>, nums: seq<int>, used: nat, j: nat, k: nat)
    requires Numbering(found, nums, used) && Based(base, found, ItemsOf(nums, used))
    requires j < k < |nums| && 0 <= nums[j] < used && 0 <= nums[k] < used
    ensures PlaceOf(base, nums, j) != PlaceOf(base, nums, k)
  {
    if nums[j] == nums[k] {
      TimesUpTo(nums, nums[j], j);
      TimesMonotone(nums, nums[j], j + 1, k);
    } else {
      var a := PlaceIsInPage(base, found, nums, used, j);
      var b := PlaceIsInPage(base, found, nums, used, k);
      assert a != b;
      StartsAscend(found, ItemsOf(nums, used), if a < b then a else b, if a < b then b else a);
    }
  }

  /** The first upto items are where they go. */
  ghost predicate Placed(order: seq<nat>, base: seq<nat>, nums: seq<int>, upto: nat) {
    && upto <= |nums|
    && (forall j | 0 <= j < upto && nums[j] != NO_PAGE ::
          0 <= nums[j] < |base| && PlaceOf(base, nums, j) < |order| && order[PlaceOf(base, nums, j)] == j)
  }

  /** The items written to their places, in the order the threads come to it. */
  function Written(order: seq<nat>, base: seq<nat>, nums: seq<int>, js: seq<nat>): seq<nat> {
    if js == [] then order
    else
      var before, j := Written(order, base, nums, js[..|js| - 1]), js[|js| - 1];
      if j < |nums| && 0 <= nums[j] < |base| && PlaceOf(base, nums, j) < |before| then before[PlaceOf(base, nums, j) := j]
      else before
  }

  lemma {:induction false} WrittenStays(order: seq<nat>, base: seq<nat>, found: seq<Found>, nums: seq<int>, used: nat,
                                        js: seq<nat>, j: nat)
    requires Numbering(found, nums, used) && Based(base, found, ItemsOf(nums, used))
    requires |order| == StartOf(found, ItemsOf(nums, used), |found|)
    requires forall k | 0 <= k < |js| :: js[k] < |nums| && nums[js[k]] != NO_PAGE
    requires j in js
    ensures |Written(order, base, nums, js)| == |order|
    ensures 0 <= nums[j] < |base| && PlaceOf(base, nums, j) < |order| && Written(order, base, nums, js)[PlaceOf(base, nums, j)] == j
  {
    var init, last := js[..|js| - 1], js[|js| - 1];
    WrittenHasLength(order, base, nums, init);
    PlaceIsInOrder(base, found, nums, used, j);
    PlaceIsInOrder(base, found, nums, used, last);
    if j != last {
      assert js == init + [last];
      WrittenStays(order, base, found, nums, used, init, j);
      PlacesAreApart(base, found, nums, used, if j < last then j else last, if j < last then last else j);
    }
  }

  lemma {:induction false} WrittenHasLength(order: seq<nat>, base: seq<nat>, nums: seq<int>, js: seq<nat>)
    ensures |Written(order, base, nums, js)| == |order|
  {
    if js != [] {
      WrittenHasLength(order, base, nums, js[..|js| - 1]);
    }
  }

  /** However the writes of the segments come between each other: once all items
      are written, each is at its place. */
  lemma EveryInterleavingPlaces(order: seq<nat>, base: seq<nat>, found: seq<Found>, nums: seq<int>, used: nat, js: seq<nat>)
    requires Numbering(found, nums, used) && Based(base, found, ItemsOf(nums, used))
    requires |order| == StartOf(found, ItemsOf(nums, used), |found|)
    requires forall k | 0 <= k < |js| :: js[k] < |nums| && nums[js[k]] != NO_PAGE
    requires forall j: nat | j < |nums| && nums[j] != NO_PAGE :: j in js
    ensures |Written(order, base, nums, js)| == |order| && Placed(Written(order, base, nums, js), base, nums, |nums|)
  {
    WrittenHasLength(order, base, nums, js);
    forall j | 0 <= j < |nums| && nums[j] != NO_PAGE
      ensures 0 <= nums[j] < |base| && PlaceOf(base, nums, j) < |order|
      ensures Written(order, base, nums, js)[PlaceOf(base, nums, j)] == j
    {
      WrittenStays(order, base, found, nums, used, js, j);
    }
  }

  lemma RankPlace(base: seq<nat>, nums: seq<int>, n: nat, r: nat)
    requires n < |base| && r < Times(nums, n)
    ensures var j := Positions(nums, n)[r]; j < |nums| && nums[j] == n && PlaceOf(base, nums, j) == base[n] + r
  {
    PlaceIsRank(nums, n, r);
  }

  lemma PlacedAt(order: seq<nat>, base: seq<nat>, nums: seq<int>, n: nat, r: nat, j: nat)
    requires Placed(order, base, nums, |nums|) && n < |base| && j < |nums| && nums[j] == n
    requires PlaceOf(base, nums, j) == base[n] + r
    ensures base[n] + r < |order| && order[base[n] + r] == j
  {}

  /** Once all items are placed, the places of a page hold its items in their order. */
  lemma PlacedIsSorted(order: seq<nat>, base: seq<nat>, found: seq<Found>, nums: seq<int>, used: nat, i: nat)
    requires Numbering(found, nums, used) && Based(base, found, ItemsOf(nums, used)) && Placed(order, base, nums, |nums|)
    requires i < |found| && |order| == StartOf(found, ItemsOf(nums, used), |found|)
    ensures var items := ItemsOf(nums, used);
      && StartOf(found, items, i) <= StartOf(found, items, i + 1) <= |order|
      && order[StartOf(found, items, i)..StartOf(found, items, i + 1)] == Positions(nums, found[i].number)
  {
    var items, n := ItemsOf(nums, used), found[i].number;
    var start := StartOf(found, items, i);
    StartsAscend(found, items, i, |found|);
    assert StartOf(found, items, i + 1) == start + Times(nums, n);
    if i + 1 < |found| {
      StartsAscend(found, items, i + 1, |found|);
    }
    forall r | 0 <= r < Times(nums, n) ensures start + r < |order| && order[start + r] == Positions(nums, n)[r] {
      RankPlace(base, nums, n, r);
      PlacedAt(order, base, nums, n, r, Positions(nums, n)[r]);
    }
  }

  /** What was noted as number and what the items say as page have the same places. */
  lemma NumbersArePages(segments: seq<seq<nat>>, y: Tally, page: nat)
    requires Complete(segments, y) && page in y.numbers
    ensures |Flat(y.noted)| == |Flat(segments)|
    ensures Positions(Flat(y.noted), y.numbers[page] - 1) == Positions(PagesOf(Flat(segments)), page)
  {
    FlatLengths(segments, y.noted);
    var nums, number: int, pages := Flat(y.noted), y.numbers[page] - 1, PagesOf(Flat(segments));
    forall j | 0 <= j < |nums| ensures NumberIsPage(nums, number, pages, page, j) {
      NotedIsPage(segments, y, page, j);
    }
    SamePlaces(nums, number, pages, page);
  }

  predicate NumberIsPage(nums: seq<int>, number: int, pages: seq<int>, page: int, j: nat)
    requires j < |nums| && j < |pages|
  {
    nums[j] == number <==> pages[j] == page
  }

  lemma SamePlaces(nums: seq<int>, number: int, pages: seq<int>, page: int)
    requires |nums| == |pages| && forall j | 0 <= j < |nums| :: NumberIsPage(nums, number, pages, page, j)
    ensures Positions(nums, number) == Positions(pages, page)
  {
    forall j | 0 <= j < |nums| ensures nums[j] == number <==> pages[j] == page {
      assert NumberIsPage(nums, number, pages, page, j);
    }
    SamePositions(nums, number, pages, page);
  }

  lemma NotedIsPage(segments: seq<seq<nat>>, y: Tally, page: nat, j: nat)
    requires Complete(segments, y) && page in y.numbers && j < |Flat(segments)| == |Flat(y.noted)|
    ensures NumberIsPage(Flat(y.noted), y.numbers[page] - 1, PagesOf(Flat(segments)), page, j)
  {
    NotedAt(segments, y, j);
  }

  /** The number noted for an item is that of its page. */
  lemma NotedAt(segments: seq<seq<nat>>, y: Tally, j: nat)
    requires Complete(segments, y) && j < |Flat(segments)| == |Flat(y.noted)|
    ensures var index := Flat(segments)[j];
      && Flat(y.noted)[j] == NumberOf(y.numbers, index) < y.used
      && (PageOf(index) != NO_PAGE ==> PageOf(index) in y.numbers)
  {
    var g, k := FlatWhere(segments, j);
    forall h | 0 <= h < |segments| ensures |y.noted[h]| == |segments[h]| {}
    FlatLengths(segments[..g], y.noted[..g]);
    FlatAt(y.noted, g, k);
    assert Noted(y.numbers, y.used, segments[g], y.noted[g], y.counts[g]);
  }

  /** The pages found are those numbered, with their numbers. */
  ghost predicate FoundAll(found: seq<Found>, numbers: map<nat, nat>) {
    && (forall i | 0 <= i < |found| :: found[i].page in numbers && numbers[found[i].page] == found[i].number + 1)
    && (forall i, j | 0 <= i < j < |found| :: found[i].page < found[j].page)
    && (forall p | p in numbers :: exists i :: 0 <= i < |found| && found[i].page == p)
  }

  ghost predicate FoundBelow(found: seq<Found>, numbers: map<nat, nat>, page: nat) {
    && (forall i | 0 <= i < |found| ::
          found[i].page in numbers && found[i].page < page && numbers[found[i].page] == found[i].number + 1)
    && (forall i, j | 0 <= i < j < |found| :: found[i].page < found[j].page)
    && (forall p | p in numbers && p < page :: exists i :: 0 <= i < |found| && found[i].page == p)
  }

  lemma ScanGoesOn(found: seq<Found>, numbers: map<nat, nat>, page: nat)
    requires FoundBelow(found, numbers, page) && page in numbers && numbers[page] > 0
    ensures FoundBelow(found + [Found(page, numbers[page] - 1)], numbers, page + 1)
  {
    var all := found + [Found(page, numbers[page] - 1)];
    forall p | p in numbers && p < page + 1 ensures exists i :: 0 <= i < |all| && all[i].page == p {
      if p == page {
        assert all[|found|].page == p;
      } else {
        var i :| 0 <= i < |found| && found[i].page == p;
        assert all[i].page == p;
      }
    }
  }

  lemma ScanSkips(found: seq<Found>, numbers: map<nat, nat>, page: nat)
    requires FoundBelow(found, numbers, page) && page !in numbers
    ensures FoundBelow(found, numbers, page + 1)
  {}

  /** What the scan of a page adds. */
  function Scanned(found: seq<Found>, numbers: map<nat, nat>, page: nat): seq<Found> {
    if page in numbers && numbers[page] > 0 then found + [Found(page, numbers[page] - 1)] else found
  }

  lemma ScanNext(found: seq<Found>, numbers: map<nat, nat>, page: nat)
    requires FoundBelow(found, numbers, page) && (page in numbers ==> numbers[page] > 0)
    ensures FoundBelow(Scanned(found, numbers, page), numbers, page + 1)
  {
    if page in numbers {
      ScanGoesOn(found, numbers, page);
    } else {
      ScanSkips(found, numbers, page);
    }
  }

  lemma BelowIsAll(found: seq<Found>, numbers: map<nat, nat>, page: nat)
    requires FoundBelow(found, numbers, page) && forall p | p in numbers :: p < page
    ensures FoundAll(found, numbers)
  {}

  /** m_numbers gone through or what the segments found sorted: the same. */
  lemma PathsAgree(scanned: seq<Found>, sorted: seq<Found>, numbers: map<nat, nat>)
    requires FoundAll(scanned, numbers) && FoundAll(sorted, numbers)
    ensures scanned == sorted
  {
    var a, b := PagesFound(scanned), PagesFound(sorted);
    forall p: nat ensures (p in a <==> p in numbers) && (p in b <==> p in numbers) {
      PagesFoundAre(scanned, numbers, p);
      PagesFoundAre(sorted, numbers, p);
    }
    AscendingIsUnique(a, b);
    forall i | 0 <= i < |scanned| ensures scanned[i] == sorted[i] {
      assert a[i] == b[i];
    }
  }

  lemma PagesFoundAre(found: seq<Found>, numbers: map<nat, nat>, p: nat)
    requires FoundAll(found, numbers)
    ensures p in PagesFound(found) <==> p in numbers
  {
    var pages := PagesFound(found);
    assert forall i | 0 <= i < |found| :: pages[i] in numbers;
    if p in numbers {
      var i :| 0 <= i < |found| && found[i].page == p;
      assert pages[i] == p;
    }
  }

  lemma FoundIsNumbering(segments: seq<seq<nat>>, y: Tally, found: seq<Found>)
    requires Complete(segments, y) && FoundAll(found, y.numbers)
    ensures Numbering(found, Flat(y.noted), y.used)
  {
    FlatLengths(segments, y.noted);
    forall j | 0 <= j < |Flat(y.noted)|
      ensures Flat(y.noted)[j] == NO_PAGE || exists i :: 0 <= i < |found| && found[i].number == Flat(y.noted)[j]
    {
      NotedAt(segments, y, j);
      var page := PageOf(Flat(segments)[j]);
      if page != NO_PAGE {
        var i :| 0 <= i < |found| && found[i].page == page;
        assert found[i].number == Flat(y.noted)[j];
      }
    }
  }

  // --- the sort -------------------------------------------------------------

  predicate Sorted(found: seq<Found>) { forall i, j | 0 <= i < j < |found| :: found[i].page <= found[j].page }

  lemma InsertedIsSorted(sorted: seq<Found>, at: nat, f: Found)
    requires Sorted(sorted) && at <= |sorted| && (at > 0 ==> sorted[at - 1].page <= f.page)
    requires forall j | at <= j < |sorted| :: sorted[j].page > f.page
    ensures Sorted(sorted[..at] + [f] + sorted[at..])
  {}

  method Insert(sorted: seq<Found>, f: Found) returns (r: seq<Found>)
    requires Sorted(sorted)
    ensures Sorted(r) && multiset(r) == multiset(sorted) + multiset{f}
  {
    var at := |sorted|;
    while at > 0 && sorted[at - 1].page > f.page
      invariant 0 <= at <= |sorted|
      invariant forall j | at <= j < |sorted| :: sorted[j].page > f.page
    {
      at := at - 1;
    }
    InsertedIsSorted(sorted, at, f);
    assert sorted == sorted[..at] + sorted[at..];
    r := sorted[..at] + [f] + sorted[at..];
  }

  /** std::ranges::sort by the page. */
  method SortByPage(unsorted: seq<Found>) returns (sorted: seq<Found>)
    ensures Sorted(sorted) && multiset(sorted) == multiset(unsorted)
  {
    sorted := [];
    for k := 0 to |unsorted|
      invariant Sorted(sorted) && multiset(sorted) == multiset(unsorted[..k])
    {
      assert unsorted[..k + 1] == unsorted[..k] + [unsorted[k]];
      sorted := Insert(sorted, unsorted[k]);
    }
    assert unsorted[..|unsorted|] == unsorted;
  }

  function PagesFound(found: seq<Found>): (pages: seq<nat>)
    ensures |pages| == |found| && forall i | 0 <= i < |pages| :: pages[i] == found[i].page
  {
    seq(|found|, i requires 0 <= i < |found| => found[i].page)
  }

  lemma TwiceIsTwo<T>(s: seq<T>, i: nat, j: nat)
    requires i < j < |s| && s[i] == s[j]
    ensures multiset(s)[s[i]] >= 2
  {
    assert s == s[..j] + [s[j]] + s[j + 1..];
    assert s[i] in s[..j];
  }

  lemma {:induction false} TwoIsTwice<T>(s: seq<T>, x: T) returns (i: nat, j: nat)
    requires multiset(s)[x] >= 2
    ensures i < j < |s| && s[i] == x && s[j] == x
  {
    var init := s[..|s| - 1];
    assert s == init + [s[|s| - 1]];
    if multiset(init)[x] >= 2 {
      i, j := TwoIsTwice(init, x);
    } else {
      assert x in multiset(init);
      i :| 0 <= i < |init| && init[i] == x;
      j := |s| - 1;
    }
  }

  lemma FlatIsNumbered(numbers: map<nat, nat>, numbered: seq<seq<Found>>, a: nat)
    requires Numbered(numbers, numbered) && a < |Flat(numbered)|
    ensures var f: Found := Flat(numbered)[a]; f.page in numbers && numbers[f.page] == f.number + 1
  {
    var g, k := FlatWhere(numbered, a);
  }

  lemma FlatHasNoTwice(numbers: map<nat, nat>, numbered: seq<seq<Found>>, f: Found)
    requires Numbered(numbers, numbered)
    ensures multiset(Flat(numbered))[f] <= 1
  {
    if multiset(Flat(numbered))[f] >= 2 {
      var a, b := TwoIsTwice(Flat(numbered), f);
      var g, i := FlatWhere(numbered, a);
      var h, j := FlatWhere(numbered, b);
    }
  }

  lemma FlatHas<T>(pieces: seq<seq<T>>, g: nat, k: nat)
    requires g < |pieces| && k < |pieces[g]|
    ensures pieces[g][k] in multiset(Flat(pieces))
  {
    FlatAt(pieces, g, k);
    assert pieces[g][k] in Flat(pieces);
  }

  /** What the segments found, in any order, is every page, once. */
  lemma OneIsNumbered(numbers: map<nat, nat>, numbered: seq<seq<Found>>, all: seq<Found>, i: nat)
    requires Numbered(numbers, numbered) && multiset(all) == multiset(Flat(numbered)) && i < |all|
    ensures all[i].page in numbers && numbers[all[i].page] == all[i].number + 1
  {
    assert all[i] in multiset(Flat(numbered));
    var a :| 0 <= a < |Flat(numbered)| && Flat(numbered)[a] == all[i];
    FlatIsNumbered(numbers, numbered, a);
  }

  lemma TwoDiffer(numbers: map<nat, nat>, numbered: seq<seq<Found>>, all: seq<Found>, i: nat, j: nat)
    requires Numbered(numbers, numbered) && multiset(all) == multiset(Flat(numbered)) && i < j < |all|
    ensures all[i].page != all[j].page
  {
    OneIsNumbered(numbers, numbered, all, i);
    OneIsNumbered(numbers, numbered, all, j);
    if all[i].page == all[j].page {
      TwiceIsTwo(all, i, j);
      FlatHasNoTwice(numbers, numbered, all[i]);
    }
  }

  lemma PageIsThere(numbers: map<nat, nat>, numbered: seq<seq<Found>>, all: seq<Found>, p: nat)
    requires Numbered(numbers, numbered) && multiset(all) == multiset(Flat(numbered)) && p in numbers
    ensures exists i :: 0 <= i < |all| && all[i].page == p
  {
    var g, k :| 0 <= g < |numbered| && 0 <= k < |numbered[g]| && numbered[g][k].page == p;
    FlatHas(numbered, g, k);
    assert numbered[g][k] in multiset(all);
    var i :| 0 <= i < |all| && all[i] == numbered[g][k];
  }

  lemma SortedIsAll(numbers: map<nat, nat>, numbered: seq<seq<Found>>, all: seq<Found>)
    requires Numbered(numbers, numbered) && multiset(all) == multiset(Flat(numbered))
    requires Sorted(all)
    ensures FoundAll(all, numbers)
  {
    forall i | 0 <= i < |all| ensures all[i].page in numbers && numbers[all[i].page] == all[i].number + 1 {
      OneIsNumbered(numbers, numbered, all, i);
    }
    forall i, j | 0 <= i < j < |all| ensures all[i].page < all[j].page {
      TwoDiffer(numbers, numbered, all, i, j);
    }
    forall p | p in numbers ensures exists i :: 0 <= i < |all| && all[i].page == p {
      PageIsThere(numbers, numbered, all, p);
    }
  }

  /** The items and those of another segment. */
  method AddCounts(items: seq<nat>, counts: seq<nat>) returns (sum: seq<nat>)
    requires |counts| <= |items|
    ensures |sum| == |items|
    ensures forall n | 0 <= n < |sum| :: sum[n] == items[n] + if n < |counts| then counts[n] else 0
  {
    sum := items;
    for m := 0 to |counts|
      invariant |sum| == |items|
      invariant forall n | 0 <= n < |sum| :: sum[n] == items[n] + if n < m then counts[n] else 0
    {
      sum := sum[m := sum[m] + counts[m]];
    }
  }

  /** Where the next item of a number goes: after those of the segments before. */
  predicate Starts(starts: seq<nat>, length: nat, base: seq<nat>, before: seq<int>) {
    |starts| == length <= |base| && forall n | 0 <= n < length :: starts[n] == base[n] + Times(before, n)
  }

  lemma CountsAdd(before: seq<int>, noted: seq<int>, counts: seq<nat>, items: seq<nat>)
    requires |counts| <= |items| && forall k | 0 <= k < |noted| :: noted[k] < |counts|
    requires forall n | 0 <= n < |counts| :: counts[n] == Times(noted, n)
    ensures forall n | 0 <= n < |items| ::
              Times(before + noted, n) == Times(before, n) + if n < |counts| then counts[n] else 0
  {
    forall n | 0 <= n < |items|
      ensures Times(before + noted, n) == Times(before, n) + if n < |counts| then counts[n] else 0
    {
      TimesConcat(before, noted, n);
      if n >= |counts| {
        TimesOfNone(noted, n);
      }
    }
  }

  lemma StartsAdd(base: seq<nat>, before: seq<int>, noted: seq<int>, counts: seq<nat>, next: seq<nat>)
    requires |counts| <= |next| && forall k | 0 <= k < |noted| :: noted[k] < |counts|
    requires forall n | 0 <= n < |counts| :: counts[n] == Times(noted, n)
    requires Starts(next, |next|, base, before)
    ensures Starts(next[..|counts|], |counts|, base, before)
    ensures forall n | 0 <= n < |next| ::
              next[n] + (if n < |counts| then counts[n] else 0) == base[n] + Times(before + noted, n)
  {
    CountsAdd(before, noted, counts, next);
  }

  /** Where every page starts, by page and by number. */
  method StartPages(found: seq<Found>, items: seq<nat>) returns (offsets: seq<nat>, base: seq<nat>)
    requires Different(found, |items|)
    ensures Based(base, found, items)
    ensures |offsets| == |found| + 1 && forall i {:trigger offsets[i]} | 0 <= i <= |found| :: offsets[i] == StartOf(found, items, i)
  {
    base := items;
    offsets := [];
    var at := 0;
    for i := 0 to |found|
      invariant |offsets| == i && |base| == |items| && at == StartOf(found, items, i)
      invariant forall k {:trigger offsets[k]} | 0 <= k < i :: offsets[k] == StartOf(found, items, k)
      invariant forall k {:trigger base[found[k].number]} | 0 <= k < i :: base[found[k].number] == StartOf(found, items, k)
      invariant forall k {:trigger base[found[k].number]} | i <= k < |found| :: base[found[k].number] == items[found[k].number]
    {
      offsets := offsets + [at];
      var here := base[found[i].number];
      base := base[found[i].number := at];
      at := at + here;
    }
    offsets := offsets + [at];
  }

  predicate LastOk(numbers: map<nat, nat>, last: Option<Found>) {
    last.Some? ==> last.value.page in numbers && numbers[last.value.page] == last.value.number + 1
  }

  lemma StartsNext(places: seq<nat>, base: seq<nat>, nums: seq<int>, j: nat)
    requires j < |nums| && Starts(places, |places|, base, nums[..j])
    ensures nums[j] == NO_PAGE ==> Starts(places, |places|, base, nums[..j + 1])
    ensures 0 <= nums[j] < |places| ==>
              places[nums[j]] == PlaceOf(base, nums, j) &&
              Starts(places[nums[j] := places[nums[j]] + 1], |places|, base, nums[..j + 1])
  {
    forall n | 0 <= n < |places| ensures Times(nums[..j + 1], n) == Times(nums[..j], n) + if nums[j] == n then 1 else 0 {
      TimesUpTo(nums, n, j);
    }
  }

  lemma PlacedNext(order: seq<nat>, base: seq<nat>, found: seq<Found>, nums: seq<int>, used: nat, j: nat)
    requires Numbering(found, nums, used) && Based(base, found, ItemsOf(nums, used)) && Placed(order, base, nums, j)
    requires j < |nums| && nums[j] != NO_PAGE && 0 <= nums[j] < |base| && PlaceOf(base, nums, j) < |order|
    ensures Placed(order[PlaceOf(base, nums, j) := j], base, nums, j + 1)
  {
    forall i | 0 <= i < j && nums[i] != NO_PAGE ensures PlaceOf(base, nums, i) != PlaceOf(base, nums, j) {
      PlacesAreApart(base, found, nums, used, i, j);
    }
  }

  lemma PlacesNext(order: seq<nat>, places: seq<nat>, base: seq<nat>, found: seq<Found>, nums: seq<int>, used: nat, j: nat)
    requires Numbering(found, nums, used) && Based(base, found, ItemsOf(nums, used)) && Placed(order, base, nums, j)
    requires j < |nums| && Starts(places, |places|, base, nums[..j]) && nums[j] < |places|
    requires |order| == StartOf(found, ItemsOf(nums, used), |found|)
    ensures nums[j] == NO_PAGE ==> Starts(places, |places|, base, nums[..j + 1]) && Placed(order, base, nums, j + 1)
    ensures nums[j] != NO_PAGE ==>
              && 0 <= nums[j] < |places| && places[nums[j]] < |order|
              && Starts(places[nums[j] := places[nums[j]] + 1], |places|, base, nums[..j + 1])
              && Placed(order[places[nums[j]] := j], base, nums, j + 1)
  {
    StartsNext(places, base, nums, j);
    if nums[j] != NO_PAGE {
      PlaceIsInOrder(base, found, nums, used, j);
      PlacedNext(order, base, found, nums, used, j);
    }
  }

  /** What a segment noted is a piece of what all of them did. */
  lemma SegmentIsReady(segments: seq<seq<nat>>, y: Tally, g: nat)
    requires Complete(segments, y) && g < |segments|
    ensures var at := |Flat(y.noted[..g])|;
      && at + |y.noted[g]| <= |Flat(y.noted)| && Flat(y.noted)[at..at + |y.noted[g]|] == y.noted[g]
      && Flat(y.noted)[..at] == Flat(y.noted[..g])
      && |Flat(y.noted[..g + 1])| == at + |segments[g]| && |y.noted[g]| == |segments[g]|
      && Noted(y.numbers, y.used, segments[g], y.noted[g], y.counts[g])
      && (forall p | p in y.numbers :: y.numbers[p] > 0)
  {
    FlatAt(y.noted, g, 0);
    FlatAt(y.noted, g, |y.noted[g]|);
    FlatUpTo(y.noted, g);
  }

  /** What place is for: page(i) of the sort is the items of the page, in their order. */
  ghost predicate PagesAre(order: seq<nat>, offsets: seq<nat>, pages: seq<nat>, items: seq<nat>) {
    && |offsets| == |pages| + 1 && offsets[|pages|] == |order|
    && (forall i {:trigger pages[i]} | 0 <= i < |pages| ::
          offsets[i] <= offsets[i + 1] <= |order| &&
          order[offsets[i]..offsets[i + 1]] == Positions(PagesOf(items), pages[i]))
  }

  lemma FoundNumber(found: seq<Found>, numbers: map<nat, nat>, i: nat)
    requires FoundAll(found, numbers) && i < |found|
    ensures found[i].page in numbers && found[i].number == numbers[found[i].page] - 1
  {}

  lemma PlacedIsPage(order: seq<nat>, base: seq<nat>, found: seq<Found>, segments: seq<seq<nat>>, y: Tally, i: nat)
    requires Complete(segments, y) && Numbering(found, Flat(y.noted), y.used)
    requires Based(base, found, ItemsOf(Flat(y.noted), y.used)) && Placed(order, base, Flat(y.noted), |Flat(y.noted)|)
    requires |order| == StartOf(found, ItemsOf(Flat(y.noted), y.used), |found|) && i < |found|
    requires found[i].page in y.numbers && found[i].number == y.numbers[found[i].page] - 1
    ensures var items := ItemsOf(Flat(y.noted), y.used);
      && StartOf(found, items, i) <= StartOf(found, items, i + 1) <= |order|
      && order[StartOf(found, items, i)..StartOf(found, items, i + 1)] == Positions(PagesOf(Flat(segments)), found[i].page)
  {
    PlacedIsSorted(order, base, found, Flat(y.noted), y.used, i);
    NumbersArePages(segments, y, found[i].page);
  }

  lemma PlacedIsPages(order: seq<nat>, base: seq<nat>, offsets: seq<nat>, found: seq<Found>, segments: seq<seq<nat>>, y: Tally)
    requires Complete(segments, y) && FoundAll(found, y.numbers) && Numbering(found, Flat(y.noted), y.used)
    requires Based(base, found, ItemsOf(Flat(y.noted), y.used)) && Placed(order, base, Flat(y.noted), |Flat(y.noted)|)
    requires |offsets| == |found| + 1
    requires forall i {:trigger offsets[i]} | 0 <= i <= |found| ::
               offsets[i] == StartOf(found, ItemsOf(Flat(y.noted), y.used), i)
    requires |order| == offsets[|found|]
    ensures PagesAre(order, offsets, PagesFound(found), Flat(segments))
  {
    var pages := PagesFound(found);
    forall i {:trigger pages[i]} | 0 <= i < |pages|
      ensures offsets[i] <= offsets[i + 1] <= |order|
      ensures order[offsets[i]..offsets[i + 1]] == Positions(PagesOf(Flat(segments)), pages[i])
    {
      FoundNumber(found, y.numbers, i);
      PlacedIsPage(order, base, found, segments, y, i);
    }
  }

  /** All pages that items are of, ascending. */
  ghost predicate PagesHit(pages: seq<nat>, items: seq<nat>) {
    Ascending(pages) && forall p: nat :: p in pages <==> p in PagesOf(items)
  }

  lemma HitIsPage(segments: seq<seq<nat>>, p: nat)
    ensures Hit(segments, p) <==> p in PagesOf(Flat(segments))
  {
    if t, k :| 0 <= t < |segments| && 0 <= k < |segments[t]| && PageOf(segments[t][k]) == p {
      FlatAt(segments, t, k);
      assert PagesOf(Flat(segments))[|Flat(segments[..t])| + k] == p;
    }
    if j :| 0 <= j < |Flat(segments)| && PagesOf(Flat(segments))[j] == p {
      var t, k := FlatWhere(segments, j);
      assert PageOf(segments[t][k]) == p;
    }
  }

  lemma FoundAreHit(segments: seq<seq<nat>>, y: Tally, found: seq<Found>)
    requires Complete(segments, y) && FoundAll(found, y.numbers)
    ensures PagesHit(PagesFound(found), Flat(segments))
  {
    forall p: nat ensures p in PagesFound(found) <==> p in PagesOf(Flat(segments)) {
      PagesFoundAre(found, y.numbers, p);
      HitIsPage(segments, p);
    }
  }

  /** The threads of count before their first step. */
  function Start(segments: seq<seq<nat>>): State {
    State(segments, map[], 0, seq(|segments|, _ => Thread(Pc.Next, 0, 0, None, [], [], [])))
  }

  predicate IsDone(s: State, t: nat)
    requires t < |s.threads| == |s.segments|
  {
    |s.threads[t].noted| >= |s.segments[t]|
  }

  /** How many steps a thread may still take. */
  function StepsLeft(s: State, t: nat): int
    requires t < |s.threads| == |s.segments|
  {
    var l := s.threads[t];
    4 * (|s.segments[t]| - |l.noted|) - match l.pc case Next => 0 case Load => 1 case Take => 2 case Swap => 3
  }

  ghost predicate DoneBefore(s: State, t: nat)
    requires t <= |s.threads| == |s.segments|
  {
    forall u | 0 <= u < t :: IsDone(s, u)
  }

  /** A step brings its thread on, and leaves the others where they are. */
  lemma StepsGetFewer(s: State, t: nat)
    requires Inv(s) && t < |s.threads| && !IsDone(s, t) && DoneBefore(s, t)
    ensures var s' := Step(s, t);
      && s'.segments == s.segments && |s'.threads| == |s.threads| && 0 <= StepsLeft(s', t) < StepsLeft(s, t)
      && DoneBefore(s', t)
  {
    assert ThreadOk(s, t);
    var s' := Step(s, t);
    forall u | 0 <= u < t ensures IsDone(s', u) {
      assert IsDone(s, u) && s'.threads[u] == s.threads[u];
    }
  }

  lemma OneTurnMore(s: State, turns: seq<nat>, t: nat)
    requires Initial(s) && t < |Run(s, turns).threads|
    ensures Inv(Run(s, turns)) && Run(s, turns).segments == s.segments && |Run(s, turns).threads| == |s.segments|
    ensures Run(s, turns + [t]) == Step(Run(s, turns), t)
  {
    RunInv(s, turns);
    assert (turns + [t])[..|turns|] == turns;
  }

  lemma AllAreDone(s: State)
    requires Inv(s) && DoneBefore(s, |s.threads|)
    ensures Finished(s)
  {
    forall t | 0 <= t < |s.threads| ensures |s.threads[t].noted| == |s.segments[t]| {
      assert ThreadOk(s, t) && IsDone(s, t);
    }
  }

  /** countSegment: the thread goes on alone until it is done. */
  method FinishSegment(start: State, ghost turns: seq<nat>, s: State, t: nat) returns (s': State, ghost ran: seq<nat>)
    requires Initial(start) && s == Run(start, turns) && t < |s.threads| == |s.segments| && DoneBefore(s, t)
    ensures s' == Run(start, ran) && s'.segments == s.segments && |s'.threads| == |s.threads| && DoneBefore(s', t + 1)
  {
    s', ran := s, turns;
    while !IsDone(s', t)
      invariant s' == Run(start, ran) && s'.segments == s.segments && |s'.threads| == |s.threads| && DoneBefore(s', t)
      decreases StepsLeft(s', t)
    {
      OneTurnMore(start, ran, t);
      StepsGetFewer(s', t);
      s', ran := Step(s', t), ran + [t];
    }
  }

  /** The threads of count: they race as turns says, in any interleaving, and
      whoever is not done then goes on alone. */
  method Race(segments: seq<seq<nat>>, turns: seq<nat>) returns (y: Tally)
    ensures Complete(segments, y)
  {
    var start := Start(segments);
    var s := Run(start, turns);
    ghost var ran := turns;
    RunInv(start, turns);
    for t := 0 to |segments|
      invariant s == Run(start, ran) && s.segments == segments && |s.threads| == |segments| && DoneBefore(s, t)
    {
      s, ran := FinishSegment(start, ran, s, t);
    }
    RunInv(start, ran);
    AllAreDone(s);
    EveryRaceIsComplete(start, ran);
    y := TallyOf(s);
  }

  class PageSort {
    var segments: seq<seq<nat>>
    var numbers: map<nat, nat>
    var used: nat
    var counts: seq<seq<nat>>
    var noted: seq<seq<int>>
    var numbered: seq<seq<Found>>
    var found: seq<Found>
    var pages: seq<nat>
    var offsets: seq<nat>
    var order: array<nat>

    constructor ()
      ensures segments == [] && numbers == map[] && fresh(order)
    {
      segments, numbers, used, counts, noted, numbered, found, pages, offsets := [], map[], 0, [], [], [], [], [], [];
      order := new nat[0];
    }

    ghost function Result(): Tally
      reads this
    {
      Tally(numbers, used, counts, noted, numbered)
    }

    ghost predicate Counted()
      reads this
    {
      Complete(segments, Result())
    }

    /** More items, after those added before. */
    method Add(items: seq<nat>)
      modifies this`segments
      ensures Flat(segments) == Flat(old(segments)) + items
      ensures forall g | |old(segments)| <= g < |segments| :: 0 < |segments[g]| <= SEGMENT
    {
      var first := 0;
      while first < |items|
        invariant 0 <= first <= |items|
        invariant |old(segments)| <= |segments|
        invariant Flat(segments) == Flat(old(segments)) + items[..first]
        invariant forall g | |old(segments)| <= g < |segments| :: 0 < |segments[g]| <= SEGMENT
      {
        var size := if |items| - first < SEGMENT then |items| - first else SEGMENT;
        ghost var before := segments;
        segments := segments + [items[first..first + size]];
        assert segments[..|segments| - 1] == before;
        assert items[..first + size] == items[..first] + items[first..first + size];
        first := first + size;
      }
      assert items[..first] == items;
    }

    /** count: every page that is hit has a number of its own, however the
        threads race, and the pages come out ascending. No page has a number
        before. */
    method Count(turns: seq<nat>)
      requires numbers == map[]
      modifies this
      ensures segments == old(segments) && Counted() && FoundAll(found, numbers)
      ensures pages == PagesFound(found) && PagesHit(pages, Flat(segments))
    {
      var y := Race(segments, turns);
      numbers, used, counts, noted, numbered := y.numbers, y.used, y.counts, y.noted, y.numbered;
      Collect();
      FoundAreHit(segments, Result(), found);
    }

    /** The rest of count: the pages, ascending, whether m_numbers is gone
        through or what the segments found is sorted. */
    method Collect()
      requires Counted()
      modifies this`found, this`pages
      ensures FoundAll(found, numbers)
      ensures pages == PagesFound(found)
    {
      var size, lowest: nat, highest: nat := 0, NO_PAGE_NUMBER, 0;
      for g := 0 to |segments|
        invariant 0 <= size
        invariant forall h, i | 0 <= h < g && 0 <= i < |numbered[h]| :: lowest <= numbered[h][i].page <= highest
      {
        size := size + |numbered[g]|;
        for i := 0 to |numbered[g]|
          invariant forall h, k | 0 <= h < g && 0 <= k < |numbered[h]| :: lowest <= numbered[h][k].page <= highest
          invariant forall k | 0 <= k < i :: lowest <= numbered[g][k].page <= highest
        {
          lowest := if numbered[g][i].page < lowest then numbered[g][i].page else lowest;
          highest := if numbered[g][i].page > highest then numbered[g][i].page else highest;
        }
      }
      if size != 0 && highest - lowest < SCAN_SPREAD * size {
        found := Scan(lowest, highest);
      } else {
        found := Sort();
      }
      pages := PagesFound(found);
    }

    method Scan(lowest: nat, highest: nat) returns (all: seq<Found>)
      requires forall p | p in numbers :: lowest <= p <= highest && numbers[p] > 0
      ensures FoundAll(all, numbers)
    {
      all := [];
      var page := lowest;
      while page <= highest
        invariant lowest <= page && FoundBelow(all, numbers, page)
      {
        ScanNext(all, numbers, page);
        all, page := Scanned(all, numbers, page), page + 1;
      }
      BelowIsAll(all, numbers, page);
    }

    method Sort() returns (all: seq<Found>)
      requires Counted()
      ensures FoundAll(all, numbers)
    {
      var unsorted: seq<Found> := [];
      for g := 0 to |segments|
        invariant unsorted == Flat(numbered[..g])
      {
        FlatUpTo(numbered, g);
        unsorted := unsorted + numbered[g];
      }
      assert numbered[..|segments|] == numbered;
      all := SortByPage(unsorted);
      SortedIsAll(numbers, numbered, all);
    }

    /** place: how many items every number has. */
    method CountNumbers() returns (items: seq<nat>)
      requires Counted()
      ensures items == ItemsOf(Flat(noted), used)
    {
      items := Zeros(used);
      for g := 0 to |segments|
        invariant |items| == used && forall n | 0 <= n < used :: items[n] == Times(Flat(noted[..g]), n)
      {
        assert Noted(numbers, used, segments[g], noted[g], counts[g]);
        CountsAdd(Flat(noted[..g]), noted[g], counts[g], items);
        FlatUpTo(noted, g);
        items := AddCounts(items, counts[g]);
      }
      assert noted[..|segments|] == noted;
    }

    /** Where the items of every segment start in every page. */
    method StartSegments(base: seq<nat>)
      requires Counted() && |base| == used
      modifies this`counts
      ensures |counts| == |segments|
      ensures forall g | 0 <= g < |segments| :: Starts(counts[g], |old(counts)[g]|, base, Flat(noted[..g]))
    {
      var next := base;
      for g := 0 to |segments|
        invariant |counts| == |segments| && |next| == used
        invariant forall h | g <= h < |segments| :: counts[h] == old(counts)[h]
        invariant forall h | 0 <= h < g :: Starts(counts[h], |old(counts)[h]|, base, Flat(noted[..h]))
        invariant Starts(next, used, base, Flat(noted[..g]))
      {
        assert Noted(numbers, used, segments[g], noted[g], old(counts)[g]);
        StartsAdd(base, Flat(noted[..g]), noted[g], counts[g], next);
        FlatUpTo(noted, g);
        var starts := next[..|counts[g]|];
        next := AddCounts(next, counts[g]);
        counts := counts[g := starts];
      }
    }

    /** uncount: no page has a number any more. */
    method Uncount()
      requires FoundAll(found, numbers) && pages == PagesFound(found)
      modifies this`numbers
      ensures numbers == map[]
    {
      for i := 0 to |pages|
        invariant forall p | p in numbers :: p in old(numbers) && forall k | 0 <= k < i :: pages[k] != p
      {
        numbers := numbers - {pages[i]};
      }
      forall p | p in old(numbers) ensures p !in numbers {
        PagesFoundAre(found, old(numbers), p);
        var i :| 0 <= i < |pages| && pages[i] == p;
      }
    }

    /** The number of an item: noted by count, or looked up again, with the
        page and number of the item before. */
    method NumberAt(g: nat, k: nat, useNoted: bool, last: Option<Found>, ghost counted: seq<nat>)
      returns (n: int, next: Option<Found>)
      requires g < |segments| == |noted| && k < |segments[g]| == |noted[g]|
      requires Noted(numbers, used, segments[g], noted[g], counted)
      requires LastOk(numbers, last) && forall p | p in numbers :: numbers[p] > 0
      ensures n == noted[g][k] < |counted| && LastOk(numbers, next)
    {
      next := last;
      if useNoted {
        return noted[g][k], last;
      }
      var page := PageOf(segments[g][k]);
      if page == NO_PAGE {
        return NO_PAGE, last;
      }
      if last.None? || page != last.value.page {
        next := Some(Found(page, numbers[page] - 1));
      }
      n := next.value.number;
    }

    /** The item goes where the next one of its number goes. */
    method PutItem(n: int, j: nat, places: seq<nat>, ghost base: seq<nat>, ghost nums: seq<int>) returns (next: seq<nat>)
      requires Numbering(found, nums, used) && Based(base, found, ItemsOf(nums, used)) && Placed(order[..], base, nums, j)
      requires j < |nums| && n == nums[j] < |places| && Starts(places, |places|, base, nums[..j])
      requires order.Length == StartOf(found, ItemsOf(nums, used), |found|)
      modifies order
      ensures |next| == |places| && Starts(next, |next|, base, nums[..j + 1]) && Placed(order[..], base, nums, j + 1)
    {
      ghost var was: seq<nat> := order[..];
      PlacesNext(was, places, base, found, nums, used, j);
      next := places;
      if n != NO_PAGE {
        order[places[n]] := j;
        assert order[..] == was[places[n] := j];
        next := places[n := places[n] + 1];
      }
    }

    /** place, for segment g, whose first item is the one at, among all. */
    method PlaceSegment(g: nat, at: nat, useNoted: bool, ghost base: seq<nat>, ghost nums: seq<int>, ghost counted: seq<nat>)
      requires g < |segments| == |noted| == |counts| && |noted[g]| == |segments[g]| && |counted| == |counts[g]|
      requires Noted(numbers, used, segments[g], noted[g], counted)
      requires forall p | p in numbers :: numbers[p] > 0
      requires at + |noted[g]| <= |nums| && nums[at..at + |noted[g]|] == noted[g]
      requires Numbering(found, nums, used) && Based(base, found, ItemsOf(nums, used)) && Placed(order[..], base, nums, at)
      requires Starts(counts[g], |counts[g]|, base, nums[..at])
      requires order.Length == StartOf(found, ItemsOf(nums, used), |found|)
      modifies order
      ensures Placed(order[..], base, nums, at + |noted[g]|)
    {
      var places, last := counts[g], None;
      for k := 0 to |segments[g]|
        invariant |places| == |counts[g]| && LastOk(numbers, last)
        invariant Starts(places, |places|, base, nums[..at + k])
        invariant Placed(order[..], base, nums, at + k)
      {
        var n, next := NumberAt(g, k, useNoted, last, counted);
        last := next;
        assert n == nums[at + k] by {
          assert nums[at..at + |noted[g]|][k] == nums[at + k];
        }
        places := PutItem(n, at + k, places, base, nums);
      }
    }

    /** place: the items of page i are pointed at in their order, from
        offsets[i] to offsets[i + 1], and no page has a number any more.
        useNoted: whether count noted the number of every item. */
    method Place(useNoted: bool)
      requires Counted() && FoundAll(found, numbers) && pages == PagesFound(found)
      modifies this
      ensures segments == old(segments) && pages == old(pages) && fresh(order) && numbers == map[]
      ensures PagesAre(order[..], offsets, pages, Flat(segments))
    {
      PlaceItems(useNoted);
      Uncount();
    }

    method PlaceItems(useNoted: bool)
      requires Counted() && FoundAll(found, numbers)
      modifies this`offsets, this`counts, this`order
      ensures fresh(order) && PagesAre(order[..], offsets, PagesFound(found), Flat(segments))
    {
      ghost var y := Result();
      var base := Prepare();
      PlaceAll(useNoted, base, y);
      PlacedIsPages(order[..], base, offsets, found, segments, y);
    }

    /** place, before the items. */
    method Prepare() returns (base: seq<nat>)
      requires Counted() && FoundAll(found, numbers)
      modifies this`offsets, this`counts, this`order
      ensures fresh(order) && Ready(base, old(counts))
    {
      FoundIsNumbering(segments, Result(), found);
      var items := CountNumbers();
      var starts, places := StartPages(found, items);
      base := places;
      offsets := starts;
      StartSegments(base);
      order := new nat[offsets[|found|]];
    }

    /** base, offsets and counts say where everything starts. */
    ghost predicate Ready(base: seq<nat>, counted: seq<seq<nat>>)
      reads this
    {
      && Numbering(found, Flat(noted), used)
      && Based(base, found, ItemsOf(Flat(noted), used))
      && |offsets| == |found| + 1
      && (forall i {:trigger offsets[i]} | 0 <= i <= |found| :: offsets[i] == StartOf(found, ItemsOf(Flat(noted), used), i))
      && order.Length == offsets[|found|]
      && |counts| == |segments| == |counted| <= |noted|
      && (forall g | 0 <= g < |segments| :: Starts(counts[g], |counted[g]|, base, Flat(noted[..g])))
    }

    /** place, for all segments. */
    method PlaceAll(useNoted: bool, ghost base: seq<nat>, ghost y: Tally)
      requires Complete(segments, y) && y.numbers == numbers && y.used == used && y.noted == noted
      requires Ready(base, y.counts)
      modifies order
      ensures Placed(order[..], base, Flat(noted), |Flat(noted)|)
    {
      var at := 0;
      for g := 0 to |segments|
        invariant at == |Flat(noted[..g])| <= |Flat(noted)|
        invariant Placed(order[..], base, Flat(noted), at)
      {
        at := PlaceNext(g, at, useNoted, base, y);
      }
      assert noted[..|segments|] == noted;
    }

    method PlaceNext(g: nat, at: nat, useNoted: bool, ghost base: seq<nat>, ghost y: Tally) returns (next: nat)
      requires Complete(segments, y) && y.numbers == numbers && y.used == used && y.noted == noted
      requires Ready(base, y.counts) && g < |segments| && at == |Flat(noted[..g])| <= |Flat(noted)|
      requires Placed(order[..], base, Flat(noted), at)
      modifies order
      ensures next == |Flat(noted[..g + 1])| <= |Flat(noted)| && Placed(order[..], base, Flat(noted), next)
    {
      SegmentIsReady(segments, y, g);
      PlaceSegment(g, at, useNoted, base, Flat(noted), y.counts[g]);
      next := at + |segments[g]|;
    }

    /** clear, add and count, of what some lists have. */
    method CountItems(lists: seq<seq<nat>>, turns: seq<nat>)
      requires numbers == map[]
      modifies this
      ensures Counted() && FoundAll(found, numbers) && Flat(segments) == Flat(lists)
      ensures pages == PagesFound(found) && PagesHit(pages, Flat(lists))
    {
      segments := [];
      for k := 0 to |lists|
        invariant numbers == map[] && Flat(segments) == Flat(lists[..k])
      {
        FlatUpTo(lists, k);
        Add(lists[k]);
      }
      assert lists[..|lists|] == lists;
      Count(turns);
    }

    /** All of the sort: the pages that are hit, and for each its items in the
        order of the lists; the next sort finds no page with a number. */
    method SortItems(lists: seq<seq<nat>>, turns: seq<nat>, useNoted: bool)
      requires numbers == map[]
      modifies this
      ensures numbers == map[] && Flat(segments) == Flat(lists)
      ensures PagesHit(pages, Flat(lists)) && PagesAre(order[..], offsets, pages, Flat(lists))
    {
      CountItems(lists, turns);
      Place(useNoted);
    }
  }
}
