/**
 Where the indices of entities are (entity.hpp): every index of a page that was
 handed out exists, is the rest of the page of a thread, in a chunk of a
 thread, in a free list, or on its way back to one.
 */
module Entities {
  import opened FreeList
  import opened Lists
  import opened PageSizes

  const GENERATIONS: nat := 0x1_0000_0000

  datatype Entity = Entity(index: nat, generation: nat)

  /** The rest of the page of a thread, and of its chunk. */
  datatype ShareData = Share(next: nat, end: nat, chunk: seq<nat>, left: nat)
  type Share = s: ShareData | s.next <= s.end && s.left <= |s.chunk| witness Share(0, 0, [], 0)

  /** A free list nobody is giving to. */
  type List = l: FreeList | Closed(l) witness EMPTY

  datatype Area = Area(cursor: nat, free: List, shares: seq<Share>)

  /** The page after one, and 0 after the last one. */
  function NextPage(page: nat, limit: nat): nat { if page + 1 < limit then page + 1 else 0 }

  /** Every index from first up to end, once. */
  function Range(first: nat, end: nat): (r: multiset<nat>)
    ensures forall i: nat :: r[i] == if first <= i < end then 1 else 0
    ensures |r| == if first <= end then end - first else 0
  {
    if first >= end then multiset{} else Range(first, end - 1) + multiset{end - 1}
  }

  function PageOf(page: nat): multiset<nat> { Range(page * PAGE_SIZE, page * PAGE_SIZE + PAGE_SIZE) }

  function HeldByShare(share: Share): multiset<nat> {
    Range(share.next, share.end) + multiset(share.chunk[..share.left])
  }

  /** All of some parts. */
  function Together(parts: seq<multiset<nat>>): multiset<nat> {
    if parts == [] then multiset{} else parts[0] + Together(parts[1..])
  }

  function HeldByShares(shares: seq<Share>): multiset<nat> { Together(SharesOf(shares)) }

  function SharesOf(shares: seq<Share>): (parts: seq<multiset<nat>>)
    ensures |parts| == |shares| && forall t {:trigger parts[t]} | 0 <= t < |shares| :: parts[t] == HeldByShare(shares[t])
  {
    seq(|shares|, t requires 0 <= t < |shares| => HeldByShare(shares[t]))
  }

  function HeldByArea(area: Area): multiset<nat> { HeldByShares(area.shares) + multiset(Listed(area.free)) }

  function AreasOf(areas: seq<Area>): (parts: seq<multiset<nat>>)
    ensures |parts| == |areas| && forall a {:trigger parts[a]} | 0 <= a < |areas| :: parts[a] == HeldByArea(areas[a])
  {
    seq(|areas|, a requires 0 <= a < |areas| => HeldByArea(areas[a]))
  }

  function Held(areas: seq<Area>): multiset<nat> { Together(AreasOf(areas)) }

  /** All indices of the pages. */
  function Pages(order: seq<nat>): multiset<nat> {
    if order == [] then multiset{} else Pages(order[..|order| - 1]) + PageOf(order[|order| - 1])
  }

  // --- one share, one area --------------------------------------------------

  lemma SumOfThree(a: multiset<nat>, b: multiset<nat>, c: multiset<nat>, d: multiset<nat>, e: multiset<nat>)
    requires b + c == d + e
    ensures a + b + c == a + d + e
  {
    assert a + b + c == a + (b + c) && a + d + e == a + (d + e);
  }

  lemma Cancel(a: multiset<nat>, b: multiset<nat>, c: multiset<nat>)
    requires a + c == b + c
    ensures a == b
  {
    forall x: nat ensures a[x] == b[x] {
      assert (a + c)[x] == (b + c)[x];
    }
  }

  /** One part changed, by what it has more: so has the whole. */
  lemma CancelPart(whole: multiset<nat>, whole': multiset<nat>, part: multiset<nat>, part': multiset<nat>, more: multiset<nat>)
    requires whole' + part == whole + part' && part' == part + more
    ensures whole' == whole + more
  {
    assert whole + part' == whole + more + part;
    Cancel(whole', whole + more, part);
  }

  lemma {:induction false} PartChanges(parts: seq<multiset<nat>>, k: nat, part: multiset<nat>)
    requires k < |parts|
    ensures Together(parts[k := part]) + parts[k] == Together(parts) + part
  {
    if k == 0 {
      assert parts[k := part][1..] == parts[1..];
    } else {
      assert parts[k := part][1..] == parts[1..][k - 1 := part];
      PartChanges(parts[1..], k - 1, part);
      SumOfThree(parts[0], Together(parts[1..][k - 1 := part]), parts[k], Together(parts[1..]), part);
    }
  }

  lemma {:induction false} PartIsIn(parts: seq<multiset<nat>>, k: nat)
    requires k < |parts|
    ensures parts[k] <= Together(parts)
  {
    if k > 0 {
      PartIsIn(parts[1..], k - 1);
    }
  }

  lemma {:induction false} TogetherUpTo(parts: seq<multiset<nat>>, k: nat)
    requires k < |parts|
    ensures Together(parts[..k + 1]) == Together(parts[..k]) + parts[k]
  {
    if k > 0 {
      TogetherUpTo(parts[1..], k - 1);
      assert parts[..k + 1][1..] == parts[1..][..k] && parts[..k][1..] == parts[1..][..k - 1];
      assert parts[0] + (Together(parts[1..][..k - 1]) + parts[k]) == parts[0] + Together(parts[1..][..k - 1]) + parts[k];
    }
  }

  lemma ShareChanges(shares: seq<Share>, t: nat, share: Share)
    requires t < |shares|
    ensures HeldByShares(shares[t := share]) + HeldByShare(shares[t]) == HeldByShares(shares) + HeldByShare(share)
  {
    assert SharesOf(shares[t := share]) == SharesOf(shares)[t := HeldByShare(share)];
    PartChanges(SharesOf(shares), t, HeldByShare(share));
  }

  lemma AreaChanges(areas: seq<Area>, a: nat, area: Area)
    requires a < |areas|
    ensures Held(areas[a := area]) + HeldByArea(areas[a]) == Held(areas) + HeldByArea(area)
  {
    assert AreasOf(areas[a := area]) == AreasOf(areas)[a := HeldByArea(area)];
    PartChanges(AreasOf(areas), a, HeldByArea(area));
  }

  /** What a share or the list of an area has, all areas have. */
  lemma ShareHolds(areas: seq<Area>, a: nat, t: nat)
    requires a < |areas| && t < |areas[a].shares|
    ensures HeldByShare(areas[a].shares[t]) <= HeldByArea(areas[a]) <= Held(areas)
  {
    PartIsIn(SharesOf(areas[a].shares), t);
    PartIsIn(AreasOf(areas), a);
  }

  lemma RangeSplits(first: nat, middle: nat, end: nat)
    requires first <= middle <= end
    ensures Range(first, end) == Range(first, middle) + Range(middle, end)
  {}

  lemma RangeStarts(first: nat, end: nat)
    requires first < end
    ensures Range(first, end) == Range(first + 1, end) + multiset{first}
  {
    RangeSplits(first, first + 1, end);
    RangeOfOne(first);
  }

  lemma RangeOfOne(index: nat)
    ensures Range(index, index + 1) == multiset{index}
  {}

  // --- pages ----------------------------------------------------------------

  lemma InPage(page: nat, index: nat)
    ensures index in PageOf(page) <==> index / PAGE_SIZE == page
    ensures PageOf(page)[index] <= 1
  {}

  /** An index is once in different pages, and there exactly if its page is. */
  lemma {:induction false} PagesHaveEachOnce(order: seq<nat>, index: nat)
    requires Once(order)
    ensures Pages(order)[index] == if index / PAGE_SIZE in order then 1 else 0
  {
    if order != [] {
      var init, last := order[..|order| - 1], order[|order| - 1];
      PagesHaveEachOnce(init, index);
      InPage(last, index);
      assert order == init + [last];
      assert last !in init by {
        assert forall i | 0 <= i < |init| :: init[i] == order[i];
      }
    }
  }

  lemma {:induction false} SizeOfPages(order: seq<nat>)
    ensures |Pages(order)| == |order| * PAGE_SIZE
  {
    if order != [] {
      SizeOfPages(order[..|order| - 1]);
    }
  }
}
