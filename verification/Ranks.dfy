/** Where a value lies in a sequence, how often, and sequences in pieces. */
module Ranks {
  import opened PageNumbers

  /** The places of x in xs, ascending. */
  function Positions(xs: seq<int>, x: int): (p: seq<nat>)
    ensures |p| == Times(xs, x)
  {
    if xs == [] then []
    else Positions(xs[..|xs| - 1], x) + if xs[|xs| - 1] == x then [|xs| - 1] else []
  }

  function Flat<T>(pieces: seq<seq<T>>): seq<T> {
    if pieces == [] then [] else Flat(pieces[..|pieces| - 1]) + pieces[|pieces| - 1]
  }

  lemma {:induction false} TimesConcat(a: seq<int>, b: seq<int>, x: int)
    ensures Times(a + b, x) == Times(a, x) + Times(b, x)
  {
    if b == [] {
      assert a + b == a;
    } else {
      TimesConcat(a, b[..|b| - 1], x);
      assert (a + b)[..|a + b| - 1] == a + b[..|b| - 1];
    }
  }

  lemma TimesUpTo(xs: seq<int>, x: int, j: nat)
    requires j < |xs|
    ensures Times(xs[..j + 1], x) == Times(xs[..j], x) + if xs[j] == x then 1 else 0
  {
    assert xs[..j + 1] == xs[..j] + [xs[j]];
    TimesAppend(xs[..j], xs[j], x);
  }

  lemma TimesMonotone(xs: seq<int>, x: int, i: nat, j: nat)
    requires i <= j <= |xs|
    ensures Times(xs[..i], x) <= Times(xs[..j], x)
  {
    TimesConcat(xs[..i], xs[i..j], x);
    assert xs[..j] == xs[..i] + xs[i..j];
  }

  /** An element is at the place of its rank. */
  lemma {:induction false} RankIsPlace(xs: seq<int>, j: nat)
    requires j < |xs|
    ensures Times(xs[..j], xs[j]) < Times(xs, xs[j])
    ensures Positions(xs, xs[j])[Times(xs[..j], xs[j])] == j
  {
    var init := xs[..|xs| - 1];
    if j < |init| {
      assert init[..j] == xs[..j];
      RankIsPlace(init, j);
    } else {
      assert xs[..j] == init;
    }
  }

  lemma {:induction false} PlaceIsRank(xs: seq<int>, x: int, r: nat)
    requires r < Times(xs, x)
    ensures var j := Positions(xs, x)[r]; j < |xs| && xs[j] == x && Times(xs[..j], x) == r
  {
    var init := xs[..|xs| - 1];
    if r < Times(init, x) {
      PlaceIsRank(init, x, r);
      var j := Positions(init, x)[r];
      assert init[..j] == xs[..j];
    }
  }

  lemma {:induction false} SamePositions(a: seq<int>, x: int, b: seq<int>, y: int)
    requires |a| == |b| && forall i | 0 <= i < |a| :: a[i] == x <==> b[i] == y
    ensures Positions(a, x) == Positions(b, y)
  {
    if a != [] {
      SamePositions(a[..|a| - 1], x, b[..|b| - 1], y);
    }
  }

  lemma FlatUpTo<T>(pieces: seq<seq<T>>, g: nat)
    requires g < |pieces|
    ensures Flat(pieces[..g + 1]) == Flat(pieces[..g]) + pieces[g]
  {
    assert pieces[..g + 1][..g] == pieces[..g];
  }

  /** The element k of piece g, among all. */
  lemma {:induction false} FlatPrefix<T>(pieces: seq<seq<T>>, g: nat)
    requires g <= |pieces|
    ensures |Flat(pieces[..g])| <= |Flat(pieces)| && Flat(pieces)[..|Flat(pieces[..g])|] == Flat(pieces[..g])
  {
    if g == |pieces| {
      assert pieces[..g] == pieces;
    } else {
      FlatPrefix(pieces[..|pieces| - 1], g);
      assert pieces[..|pieces| - 1][..g] == pieces[..g];
    }
  }

  lemma FlatAt<T>(pieces: seq<seq<T>>, g: nat, k: nat)
    requires g < |pieces| && k <= |pieces[g]|
    ensures var at := |Flat(pieces[..g])| + k;
      && at <= |Flat(pieces)| && Flat(pieces)[..at] == Flat(pieces[..g]) + pieces[g][..k]
      && (k < |pieces[g]| ==> at < |Flat(pieces)| && Flat(pieces)[at] == pieces[g][k])
  {
    FlatPrefix(pieces, g + 1);
    FlatUpTo(pieces, g);
    var whole := Flat(pieces[..g]) + pieces[g];
    assert Flat(pieces)[..|whole|] == whole;
    assert whole[..|Flat(pieces[..g])| + k] == Flat(pieces[..g]) + pieces[g][..k];
  }

  /** Pieces of two things that correspond, element by element. */
  lemma {:induction false} FlatWhere<T>(pieces: seq<seq<T>>, at: nat) returns (g: nat, k: nat)
    requires at < |Flat(pieces)|
    ensures g < |pieces| && k < |pieces[g]| && at == |Flat(pieces[..g])| + k && Flat(pieces)[at] == pieces[g][k]
  {
    var init := pieces[..|pieces| - 1];
    if at < |Flat(init)| {
      g, k := FlatWhere(init, at);
      assert init[..g] == pieces[..g];
    } else {
      g, k := |pieces| - 1, at - |Flat(init)|;
    }
  }

  lemma {:induction false} FlatLengths<T, U>(a: seq<seq<T>>, b: seq<seq<U>>)
    requires |a| == |b| && forall g | 0 <= g < |a| :: |a[g]| == |b[g]|
    ensures |Flat(a)| == |Flat(b)|
  {
    if a != [] {
      FlatLengths(a[..|a| - 1], b[..|b| - 1]);
    }
  }
}
