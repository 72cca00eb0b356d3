/** The product of two words from 32-bit halves (the portable rapid_mum). */
module RapidMum {
  const HALF: nat := 0x1_0000_0000
  const WORD: nat := 0x1_0000_0000_0000_0000

  /** What a sum or product keeps in 64 bits. */
  function Wrapped(x: nat): (w: nat)
    ensures w < WORD
  {
    x % WORD
  }

  /** The product of both, in its low and its high word. */
  method Mum(a: nat, b: nat) returns (low: nat, high: nat)
    requires a < WORD && b < WORD
    ensures low < WORD && high < WORD && high * WORD + low == a * b
  {
    var ha, hb, la, lb := a / HALF, b / HALF, a % HALF, b % HALF;
    HalvesMultiply(a, b, ha, hb, la, lb);
    low, high := FromProducts(ha * hb, ha * lb, hb * la, la * lb);
  }

  /** What the four products of halves add up to. */
  function Whole(rh: nat, rm0: nat, rm1: nat, rl: nat): nat { rh * WORD + (rm0 + rm1) * HALF + rl }

  method FromProducts(rh: nat, rm0: nat, rm1: nat, rl: nat) returns (low: nat, high: nat)
    requires rl < WORD && rm0 < WORD && rm1 < WORD && Whole(rh, rm0, rm1, rl) <= (WORD - 1) * (WORD - 1)
    ensures low < WORD && high < WORD && high * WORD + low == Whole(rh, rm0, rm1, rl)
  {
    var t := Wrapped(rl + Wrapped(rm0 * HALF));
    var c := if t < rl then 1 else 0;
    low := Wrapped(t + Wrapped(rm1 * HALF));
    c := c + if low < t then 1 else 0;
    high := Wrapped(Wrapped(Wrapped(rh + rm0 / HALF) + rm1 / HALF) + c);
    CarriesAreExact(rl, rm0, rm1, rh, t, low, c);
    NothingIsLost(Whole(rh, rm0, rm1, rl), rh, rm0 / HALF, rm1 / HALF, c, low);
  }

  lemma HalvesMultiply(a: nat, b: nat, ha: nat, hb: nat, la: nat, lb: nat)
    requires a < WORD && b < WORD && ha == a / HALF && hb == b / HALF && la == a % HALF && lb == b % HALF
    ensures ha * hb < WORD && ha * lb < WORD && hb * la < WORD && la * lb < WORD
    ensures Whole(ha * hb, ha * lb, hb * la, la * lb) == a * b <= (WORD - 1) * (WORD - 1)
  {
    Halves(a);
    Halves(b);
    HalfProduct(ha, hb);
    HalfProduct(ha, lb);
    HalfProduct(hb, la);
    HalfProduct(la, lb);
    AllOfIt(a, b, ha, hb, la, lb);
    Product(a, b, WORD - 1);
  }

  lemma Halves(a: nat)
    requires a < WORD
    ensures a / HALF < HALF && a == (a / HALF) * HALF + a % HALF
  {}

  lemma Product(x: nat, y: nat, most: nat)
    requires x <= most && y <= most
    ensures x * y <= most * most
  {
    assert x * y <= most * y;
  }

  /** The product of two halves is a word. */
  lemma HalfProduct(x: nat, y: nat)
    requires x < HALF && y < HALF
    ensures x * y < WORD
  {
    Product(x, y, HALF - 1);
  }

  lemma AllOfIt(a: nat, b: nat, ha: nat, hb: nat, la: nat, lb: nat)
    requires a == ha * HALF + la && b == hb * HALF + lb
    ensures a * b == ha * hb * WORD + (ha * lb + hb * la) * HALF + la * lb
  {
    assert a * b == (ha * HALF) * (hb * HALF + lb) + la * (hb * HALF + lb);
    assert (ha * HALF) * (hb * HALF + lb) == (ha * HALF) * (hb * HALF) + (ha * HALF) * lb;
    assert la * (hb * HALF + lb) == la * (hb * HALF) + la * lb;
    assert (ha * HALF) * (hb * HALF) == (ha * hb) * WORD;
  }

  lemma SumWraps(x: nat, y: nat)
    requires x < WORD && y < WORD
    ensures Wrapped(x + y) == x + y - (if Wrapped(x + y) < x then WORD else 0)
  {}

  lemma ShiftWraps(rm: nat)
    requires rm < WORD
    ensures Wrapped(rm * HALF) == rm * HALF - rm / HALF * WORD
  {
    assert rm * HALF == (rm / HALF) * WORD + (rm % HALF) * HALF;
  }

  lemma CarriesAreExact(rl: nat, rm0: nat, rm1: nat, rh: nat, t: nat, low: nat, c: nat)
    requires rl < WORD && rm0 < WORD && rm1 < WORD
    requires t == Wrapped(rl + Wrapped(rm0 * HALF)) && low == Wrapped(t + Wrapped(rm1 * HALF))
    requires c == (if t < rl then 1 else 0) + if low < t then 1 else 0
    ensures (rh + rm0 / HALF + rm1 / HALF + c) * WORD + low == Whole(rh, rm0, rm1, rl)
  {
    ShiftWraps(rm0);
    ShiftWraps(rm1);
    SumWraps(rl, Wrapped(rm0 * HALF));
    SumWraps(t, Wrapped(rm1 * HALF));
  }

  /** The product of two words has two words: no sum of the high one wraps. */
  lemma NothingIsLost(product: nat, rh: nat, m0: nat, m1: nat, c: nat, low: nat)
    requires (rh + m0 + m1 + c) * WORD + low == product <= (WORD - 1) * (WORD - 1)
    ensures Wrapped(Wrapped(Wrapped(rh + m0) + m1) + c) == rh + m0 + m1 + c
  {
    assert rh + m0 + m1 + c < WORD;
  }
}
