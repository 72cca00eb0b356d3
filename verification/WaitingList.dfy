/**
 The list of the loads that wait (resource.hpp): dispatchOnce turns what was
 pushed, newest first, around in place, and links it behind what waits. next is
 nextWaiting of every entry.
 */
module WaitingList {
  import opened ResourceEntry
  import opened ResourceInvariant
  import opened ResourceLists
  import opened Dispatch
  import opened Lists

  lemma {:induction false} ReversedMembers(list: seq<nat>, x: nat)
    ensures x in Reversed(list) <==> x in list
  {
    if list != [] {
      ReversedMembers(list[1..], x);
      assert list == [list[0]] + list[1..];
    }
  }

  lemma {:induction false} ReversedSnoc(list: seq<nat>, x: nat)
    ensures Reversed(list + [x]) == [x] + Reversed(list)
  {
    if list == [] {
      assert list + [x] == [x];
    } else {
      ReversedSnoc(list[1..], x);
      assert (list + [x])[1..] == list[1..] + [x];
    }
  }

  lemma FirstIsApart(done: seq<nat>, left: seq<nat>, list: seq<nat>)
    requires Once(list) && done + left == list && left != []
    ensures left[0] !in left[1..] && left[0] !in done && done + [left[0]] + left[1..] == list && left[0] in list
  {
    assert list[|done|] == left[0];
    assert forall i | 0 <= i < |done| :: list[i] == done[i];
    assert forall i | 0 <= i < |left| :: list[|done| + i] == left[i];
  }

  /** The next one of what was pushed, in front of those that are reversed. */
  lemma ReverseNext(was: seq<int>, rest: int, oldest: int, done: seq<nat>, left: seq<nat>, list: seq<nat>)
    requires Linked(was, rest, left) && Linked(was, oldest, Reversed(done)) && rest != NONE
    requires Once(list) && done + left == list
    ensures left != [] && rest == left[0] && left[0] < |was| && left[0] in list && done + [left[0]] + left[1..] == list
    ensures Linked(was[rest := oldest], was[rest], left[1..])
    ensures Linked(was[rest := oldest], rest, Reversed(done + [left[0]]))
  {
    var e := left[0];
    FirstIsApart(done, left, list);
    ReversedMembers(done, e);
    ReversedSnoc(done, e);
    LinkedStays(was, was[e], left[1..], e, oldest);
    LinkedStays(was, oldest, Reversed(done), e, oldest);
    LinkedCons(was[e := oldest], oldest, Reversed(done), e);
  }

  /** The reversal of dispatchOnce. */
  method Reverse(next: array<int>, pushed: int, ghost list: seq<nat>) returns (oldest: int, newest: int)
    requires Linked(next[..], pushed, list) && Once(list)
    modifies next
    ensures Linked(next[..], oldest, Reversed(list))
    ensures newest == if list == [] then NONE else list[0]
    ensures forall e | 0 <= e < next.Length && e !in list :: next[e] == old(next[e])
  {
    oldest, newest := NONE, pushed;
    var rest := pushed;
    ghost var done, left: seq<nat> := [], list;
    while rest != NONE
      invariant Linked(next[..], rest, left) && Linked(next[..], oldest, Reversed(done))
      invariant done + left == list
      invariant forall e | 0 <= e < next.Length && e !in list :: next[e] == old(next[e])
      decreases |left|
    {
      ghost var was := next[..];
      var e := rest;
      var following := next[e];
      ReverseNext(was, rest, oldest, done, left, list);
      next[e] := oldest;
      assert next[..] == was[e := oldest];
      oldest, rest := e, following;
      done, left := done + [left[0]], left[1..];
    }
    assert done == list;
  }

  /** A list behind another, whose last entry is tail. */
  method Join(next: array<int>, head: int, tail: int, oldest: int, newest: int, ghost queued: seq<nat>, ghost more: seq<nat>)
    returns (head': int, tail': int)
    requires Linked(next[..], head, queued) && Linked(next[..], oldest, more) && Once(queued + more)
    requires tail == if queued == [] then NONE else queued[|queued| - 1]
    requires newest == if more == [] then NONE else more[|more| - 1]
    modifies next
    ensures Linked(next[..], head', queued + more)
    ensures tail' == if queued + more == [] then NONE else (queued + more)[|queued + more| - 1]
    ensures forall e | 0 <= e < next.Length && e != tail :: next[e] == old(next[e])
  {
    head', tail' := head, tail;
    if oldest != NONE {
      if tail != NONE {
        ghost var was := next[..];
        LinkedBelow(was, head, queued);
        assert forall i | 0 <= i < |more| :: (queued + more)[|queued| + i] == more[i];
        assert (queued + more)[|queued| - 1] == tail;
        LinkedStays(was, oldest, more, tail, oldest);
        LinkedConcat(was, head, queued, oldest, more);
        next[tail] := oldest;
        assert next[..] == was[tail := oldest];
      } else {
        head' := oldest;
        assert queued + more == more;
      }
      tail' := newest;
    } else {
      assert queued + more == queued;
    }
  }

  lemma {:induction false} LinkedBelow(next: seq<int>, head: int, chain: seq<nat>)
    requires Linked(next, head, chain)
    ensures forall i | 0 <= i < |chain| :: chain[i] < |next|
    decreases |chain|
  {
    if chain != [] {
      LinkedBelow(next, next[chain[0]], chain[1..]);
      assert chain == [chain[0]] + chain[1..];
    }
  }

  lemma {:induction false} LinkedConcat(next: seq<int>, head: int, chain: seq<nat>, oldest: int, more: seq<nat>)
    requires Linked(next, head, chain) && chain != [] && chain[|chain| - 1] < |next| && Once(chain + more)
    requires Linked(next[chain[|chain| - 1] := oldest], oldest, more)
    ensures Linked(next[chain[|chain| - 1] := oldest], head, chain + more)
    decreases |chain|
  {
    assert (chain + more)[1..] == chain[1..] + more;
    if |chain| == 1 {
      assert chain[1..] + more == more;
    } else {
      forall i, j | 0 <= i < j < |chain[1..] + more| ensures (chain[1..] + more)[i] != (chain[1..] + more)[j] {
        assert (chain + more)[i + 1] != (chain + more)[j + 1];
      }
      LinkedConcat(next, next[chain[0]], chain[1..], oldest, more);
      assert chain[0] != chain[|chain| - 1] by {
        assert (chain + more)[0] != (chain + more)[|chain| - 1];
      }
    }
  }
}
