/**
 Every byte of a text goes into its hash: worked out with words of which nothing
 is known but how they were made, hashes of different texts of one length differ.
 */
module RapidCoverage {
  import opened RapidHash

  /** A word by how it was made: the bytes of a read, or an operation. */
  datatype Term =
    | Read(at: nat, bytes: seq<nat>)
    | Xor(a: Term, b: Term)
    | Low(a: Term, b: Term)
    | High(a: Term, b: Term)
    | Both(a: Term, b: Term)
    | Length(n: nat)
    | Zero
    | Secret(k: nat)
    | Seed

  const TERMS: Words<Term> := Words((a, b) => (Low(a, b), High(a, b)), (a, b) => Xor(a, b), (a, b) => Both(a, b),
    (n: nat) => Length(n), Zero, (k: nat) => Secret(k))

  function ReadOf(bytes: seq<nat>, p: nat, size: nat): Term {
    if p + size <= |bytes| then Read(p, bytes[p..p + size]) else Zero
  }

  function TermsOf(bytes: seq<nat>): Text<Term> {
    Text(|bytes|, (p: nat) => ReadOf(bytes, p, 8), (p: nat) => ReadOf(bytes, p, 4), (p: nat) => ReadOf(bytes, p, 1))
  }

  ghost predicate Agree(a: seq<nat>, b: seq<nat>, first: nat, end: nat) {
    |a| == |b| && forall q | first <= q < end && q < |a| :: a[q] == b[q]
  }

  lemma SameRead(a: seq<nat>, b: seq<nat>, p: nat, size: nat)
    requires |a| == |b| && p + size <= |a| && ReadOf(a, p, size) == ReadOf(b, p, size)
    ensures Agree(a, b, p, p + size)
  {
    forall q | p <= q < p + size ensures a[q] == b[q] {
      assert a[p..p + size][q - p] == b[p..p + size][q - p];
    }
  }

  lemma StepTells(a: seq<nat>, b: seq<nat>, p: nat, secret: nat, s: Term, t: Term)
    requires |a| == |b| && p + 16 <= |a|
    requires Step(TERMS, TermsOf(a), p, secret, s) == Step(TERMS, TermsOf(b), p, secret, t)
    ensures s == t && Agree(a, b, p, p + 16)
  {
    SameRead(a, b, p, 8);
    SameRead(a, b, p + 8, 8);
  }

  lemma RoundTells(a: seq<nat>, b: seq<nat>, p: nat, k: Lanes<Term>, l: Lanes<Term>)
    requires |a| == |b| && p + 112 <= |a| && Round(TERMS, TermsOf(a), p, k) == Round(TERMS, TermsOf(b), p, l)
    ensures k == l && Agree(a, b, p, p + 112)
  {
    StepTells(a, b, p, 0, k.seed, l.seed);
    StepTells(a, b, p + 16, 1, k.see1, l.see1);
    StepTells(a, b, p + 32, 2, k.see2, l.see2);
    StepTells(a, b, p + 48, 3, k.see3, l.see3);
    StepTells(a, b, p + 64, 4, k.see4, l.see4);
    StepTells(a, b, p + 80, 5, k.see5, l.see5);
    StepTells(a, b, p + 96, 6, k.see6, l.see6);
  }

  lemma NextRound(a: seq<nat>, p: nat, k: Lanes<Term>) returns (next: Lanes<Term>)
    requires p + 112 < |a|
    ensures next == Round(TERMS, TermsOf(a), p, k)
    ensures Rounds(TERMS, TermsOf(a), p, k) == Rounds(TERMS, TermsOf(a), p + 112, next)
  {
    next := Round(TERMS, TermsOf(a), p, k);
  }

  lemma AgreeOn(a: seq<nat>, b: seq<nat>, first: nat, middle: nat, end: nat)
    requires Agree(a, b, first, middle) && Agree(a, b, middle, end)
    ensures Agree(a, b, first, end)
  {}

  lemma {:induction false} RoundsTell(a: seq<nat>, b: seq<nat>, p: nat, k: Lanes<Term>, l: Lanes<Term>)
    requires |a| == |b| && p <= |a| && Rounds(TERMS, TermsOf(a), p, k) == Rounds(TERMS, TermsOf(b), p, l)
    ensures k == l && Agree(a, b, p, RoundsEnd(|a|, p))
    decreases |a| - p
  {
    if |a| - p > 112 {
      var k' := NextRound(a, p, k);
      var l' := NextRound(b, p, l);
      RoundsTell(a, b, p + 112, k', l');
      RoundTells(a, b, p, k, l);
      AgreeOn(a, b, p, p + 112, RoundsEnd(|a|, p));
    }
  }

  lemma FoldedTells(k: Lanes<Term>, l: Lanes<Term>)
    requires Folded(TERMS, k) == Folded(TERMS, l)
    ensures k == l
  {}

  lemma SeedTells(a: seq<nat>, b: seq<nat>, seed: Term)
    requires |a| == |b| && SeedOfRounds(TERMS, TermsOf(a), seed) == SeedOfRounds(TERMS, TermsOf(b), seed)
    ensures Agree(a, b, 0, RoundsEnd(|a|, 0))
  {
    if |a| > 112 {
      var lanes := Lanes(seed, seed, seed, seed, seed, seed, seed);
      FoldedTells(Rounds(TERMS, TermsOf(a), 0, lanes), Rounds(TERMS, TermsOf(b), 0, lanes));
      RoundsTell(a, b, 0, lanes, lanes);
    }
  }

  lemma NextOfTail(a: seq<nat>, p: nat, k: nat, s: Term) returns (next: Term)
    requires p <= |a| && k < 6 && |a| - p > 16 * k + 16
    ensures next == Step(TERMS, TermsOf(a), p + 16 * k, TAIL_SECRET[k], s)
    ensures Tail(TERMS, TermsOf(a), p, k, s) == Tail(TERMS, TermsOf(a), p, k + 1, next)
  {
    next := Step(TERMS, TermsOf(a), p + 16 * k, TAIL_SECRET[k], s);
  }

  /** The steps of the tail go up to the last 16 bytes. */
  lemma {:induction false} TailTells(a: seq<nat>, b: seq<nat>, p: nat, k: nat, s: Term, t: Term)
    requires |a| == |b| && 16 <= |a| && p <= |a| <= p + 112 && k <= 6
    requires Tail(TERMS, TermsOf(a), p, k, s) == Tail(TERMS, TermsOf(b), p, k, t)
    ensures s == t && Agree(a, b, p + 16 * k, |a| - 16)
    decreases 6 - k
  {
    if k < 6 && |a| - p > 16 * k + 16 {
      var at := p + 16 * k;
      var s' := NextOfTail(a, p, k, s);
      var t' := NextOfTail(b, p, k, t);
      TailTells(a, b, p, k + 1, s', t');
      StepTells(a, b, at, TAIL_SECRET[k], s, t);
      AgreeOn(a, b, at, at + 16, |a| - 16);
    }
  }

  lemma FinishedTells(x: Last<Term>, y: Last<Term>)
    requires Finished(TERMS, x) == Finished(TERMS, y)
    ensures x == y
  {}

  lemma ShortTells(a: seq<nat>, b: seq<nat>, seed: Term)
    requires |a| == |b| <= 16 && LastOfShort(TERMS, TermsOf(a), seed) == LastOfShort(TERMS, TermsOf(b), seed)
    ensures Agree(a, b, 0, |a|)
  {
    var n := |a|;
    if n >= 8 {
      SameRead(a, b, 0, 8);
      SameRead(a, b, n - 8, 8);
    } else if n >= 4 {
      SameRead(a, b, 0, 4);
      SameRead(a, b, n - 4, 4);
    } else if n > 0 {
      SameRead(a, b, 0, 1);
      SameRead(a, b, n - 1, 1);
      SameRead(a, b, n / 2, 1);
    }
  }

  lemma LastTells(a: seq<nat>, b: seq<nat>, end: nat, s: Term, t: Term)
    requires |a| == |b| > 16 && end <= |a| && LastFrom(TERMS, TermsOf(a), end, s) == LastFrom(TERMS, TermsOf(b), end, t)
    ensures s == t && Agree(a, b, |a| - 16, |a|)
  {
    SameRead(a, b, |a| - 16, 8);
    SameRead(a, b, |a| - 8, 8);
  }

  lemma LongTells(a: seq<nat>, b: seq<nat>, seed: Term)
    requires |a| == |b| > 16 && LastOfLong(TERMS, TermsOf(a), seed) == LastOfLong(TERMS, TermsOf(b), seed)
    ensures Agree(a, b, 0, |a|)
  {
    var end := RoundsEnd(|a|, 0);
    var s, t := SeedOfRounds(TERMS, TermsOf(a), seed), SeedOfRounds(TERMS, TermsOf(b), seed);
    LastTells(a, b, end, Tail(TERMS, TermsOf(a), end, 0, s), Tail(TERMS, TermsOf(b), end, 0, t));
    TailTells(a, b, end, 0, s, t);
    SeedTells(a, b, seed);
  }

  /** For every length: texts whose hashes are made in the same way are the same,
      so there is no byte that the hash leaves out. */
  lemma EveryByteCounts(a: seq<nat>, b: seq<nat>, seed: Term)
    requires |a| == |b|
    ensures Hashed(TERMS, TermsOf(a), seed) == Hashed(TERMS, TermsOf(b), seed) <==> a == b
  {
    if Hashed(TERMS, TermsOf(a), seed) == Hashed(TERMS, TermsOf(b), seed) {
      var started := Started(TERMS, seed);
      if |a| <= 16 {
        FinishedTells(LastOfShort(TERMS, TermsOf(a), started), LastOfShort(TERMS, TermsOf(b), started));
        ShortTells(a, b, started);
      } else {
        FinishedTells(LastOfLong(TERMS, TermsOf(a), started), LastOfLong(TERMS, TermsOf(b), started));
        LongTells(a, b, started);
      }
    }
  }
}
