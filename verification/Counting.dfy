// Sums over a sequence of threads or places. The protocols below say how many
// threads are between two of their steps, and one step changes one thread.
module Counting {
  function Bool(b: bool): nat { if b then 1 else 0 }

  function Sum<T>(weight: T -> nat, xs: seq<T>): nat {
    if xs == [] then 0 else weight(xs[0]) + Sum(weight, xs[1..])
  }

  /** One element replaced: the sum changes by what that element contributes. */
  lemma {:induction false} SumUpdate<T>(weight: T -> nat, xs: seq<T>, i: nat, x: T)
    requires i < |xs|
    ensures Sum(weight, xs[i := x]) + weight(xs[i]) == Sum(weight, xs) + weight(x)
  {
    if i == 0 {
      assert xs[i := x][1..] == xs[1..];
    } else {
      assert xs[i := x][1..] == xs[1..][i - 1 := x];
      SumUpdate(weight, xs[1..], i - 1, x);
    }
  }

  lemma {:induction false} SumAtLeast<T>(weight: T -> nat, xs: seq<T>, i: nat)
    requires i < |xs|
    ensures Sum(weight, xs) >= weight(xs[i])
  {
    if i > 0 {
      SumAtLeast(weight, xs[1..], i - 1);
    }
  }

  lemma {:induction false} SumAtLeastTwo<T>(weight: T -> nat, xs: seq<T>, i: nat, j: nat)
    requires i < j < |xs|
    ensures Sum(weight, xs) >= weight(xs[i]) + weight(xs[j])
  {
    if i > 0 {
      SumAtLeastTwo(weight, xs[1..], i - 1, j - 1);
    } else {
      SumAtLeast(weight, xs[1..], j - 1);
    }
  }

  lemma {:induction false} SumZero<T>(weight: T -> nat, xs: seq<T>)
    requires forall x | x in xs :: weight(x) == 0
    ensures Sum(weight, xs) == 0
  {
    if xs != [] {
      SumZero(weight, xs[1..]);
    }
  }

  lemma {:induction false} SumPositive<T>(weight: T -> nat, xs: seq<T>) returns (i: nat)
    requires Sum(weight, xs) > 0
    ensures i < |xs| && weight(xs[i]) > 0
  {
    if weight(xs[0]) > 0 {
      i := 0;
    } else {
      i := SumPositive(weight, xs[1..]);
      i := i + 1;
    }
  }
}
