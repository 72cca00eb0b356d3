/** Masks and shifts of the powers of two, bit by bit. */
module Bits {
  import Division

  function Pow2(k: nat): (p: nat)
    ensures p > 0
  {
    if k == 0 then 1 else 2 * Pow2(k - 1)
  }

  /** The & of two numbers. */
  function And(a: nat, b: nat): nat {
    if a == 0 || b == 0 then 0 else 2 * And(a / 2, b / 2) + if a % 2 == 1 && b % 2 == 1 then 1 else 0
  }

  /** The >> by k bits. */
  function ShiftRight(a: nat, k: nat): nat
    decreases k
  {
    if k == 0 then a else ShiftRight(a / 2, k - 1)
  }

  /** Quotient and remainder by twice as much, from those of half of it. */
  lemma OneBitMore(a: nat, p: nat)
    requires p > 0
    ensures a % (2 * p) == 2 * (a / 2 % p) + a % 2 && a / (2 * p) == a / 2 / p
  {
    var half := a / 2;
    assert half == half / p * p + half % p && a == 2 * half + a % 2;
    assert half / p * (2 * p) == 2 * (half / p * p);
    Division.Unique(a, 2 * p, half / p, 2 * (half % p) + a % 2);
  }

  /** The mask of k ones is the remainder by the power. */
  lemma {:induction false} MaskIsRemainder(a: nat, k: nat)
    ensures And(a, Pow2(k) - 1) == a % Pow2(k)
    decreases k
  {
    if k > 0 {
      MaskIsRemainder(a / 2, k - 1);
      OneBitMore(a, Pow2(k - 1));
      if a != 0 {
        assert (Pow2(k) - 1) / 2 == Pow2(k - 1) - 1 && (Pow2(k) - 1) % 2 == 1;
      }
    }
  }

  lemma {:induction false} ShiftIsQuotient(a: nat, k: nat)
    ensures ShiftRight(a, k) == a / Pow2(k)
    decreases k
  {
    if k > 0 {
      ShiftIsQuotient(a / 2, k - 1);
      OneBitMore(a, Pow2(k - 1));
    }
  }

  lemma {:induction false} PowersDivide(a: nat, b: nat)
    requires b <= a
    ensures Pow2(a) == Pow2(a - b) * Pow2(b)
  {
    if b > 0 {
      PowersDivide(a - 1, b - 1);
      assert 2 * (Pow2(a - b) * Pow2(b - 1)) == Pow2(a - b) * (2 * Pow2(b - 1));
    }
  }
}
