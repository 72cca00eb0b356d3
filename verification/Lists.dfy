/** Sequences: without repetition, and the other way round. */
module Lists {
  predicate Once(list: seq<nat>) { forall i, j | 0 <= i < j < |list| :: list[i] != list[j] }

  function Reversed(list: seq<nat>): seq<nat> { if list == [] then [] else Reversed(list[1..]) + [list[0]] }

  lemma {:induction false} ReversedAt(list: seq<nat>)
    ensures |Reversed(list)| == |list| && forall k | 0 <= k < |list| :: Reversed(list)[k] == list[|list| - 1 - k]
  {
    if list != [] {
      ReversedAt(list[1..]);
    }
  }
}
