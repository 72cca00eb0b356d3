/**
 rapidhash of a text (rapidhash.h), however its words are read and whatever is
 worked out with them: of words only the names of the operations are used.
 */
module RapidHash {
  /** rapid_mum, the low and the high word of a product; ^; the first byte shifted
      by 45 bits with the last one; a length and 0; the secret words. */
  datatype Words<!W> = Words(mum: (W, W) -> (W, W), xor: (W, W) -> W, ends: (W, W) -> W, length: nat -> W, zero: W,
                            secret: nat -> W)
  {
    /** rapid_mix. */
    function Mix(a: W, b: W): W {
      var (low, high) := mum(a, b);
      xor(low, high)
    }
  }

  /** A text and what a read of 8 bytes, 4 bytes and of one gives. */
  datatype Text<W> = Text(length: nat, word64: nat -> W, word32: nat -> W, byte: nat -> W)

  function At64<W>(text: Text<W>, p: nat): W
    requires p + 8 <= text.length
  {
    text.word64(p)
  }

  function At32<W>(text: Text<W>, p: nat): W
    requires p + 4 <= text.length
  {
    text.word32(p)
  }

  function At<W>(text: Text<W>, p: nat): W
    requires p < text.length
  {
    text.byte(p)
  }

  // --- the hash -------------------------------------------------------------

  /** The seven seeds that run side by side. */
  datatype Lanes<W> = Lanes(seed: W, see1: W, see2: W, see3: W, see4: W, see5: W, see6: W)

  /** 16 bytes into one seed. */
  function Step<W>(w: Words<W>, text: Text<W>, p: nat, secret: nat, seed: W): W
    requires p + 16 <= text.length
  {
    w.Mix(w.xor(At64(text, p), w.secret(secret)), w.xor(At64(text, p + 8), seed))
  }

  function Round<W>(w: Words<W>, text: Text<W>, p: nat, lanes: Lanes<W>): Lanes<W>
    requires p + 112 <= text.length
  {
    Lanes(Step(w, text, p, 0, lanes.seed), Step(w, text, p + 16, 1, lanes.see1), Step(w, text, p + 32, 2, lanes.see2),
          Step(w, text, p + 48, 3, lanes.see3), Step(w, text, p + 64, 4, lanes.see4), Step(w, text, p + 80, 5, lanes.see5),
          Step(w, text, p + 96, 6, lanes.see6))
  }

  /** Where the rounds end: at most 112 bytes are left, but never none. */
  function RoundsEnd(length: nat, p: nat): (end: nat)
    requires p <= length
    ensures p <= end <= length && length - end <= 112 && (length > p ==> length > end)
    decreases length - p
  {
    if length - p > 112 then RoundsEnd(length, p + 112) else p
  }

  function Rounds<W>(w: Words<W>, text: Text<W>, p: nat, lanes: Lanes<W>): Lanes<W>
    requires p <= text.length
    decreases text.length - p
  {
    if text.length - p > 112 then Rounds(w, text, p + 112, Round(w, text, p, lanes)) else lanes
  }

  /** The seeds of the lanes in one. */
  function Folded<W>(w: Words<W>, lanes: Lanes<W>): W {
    w.xor(w.xor(w.xor(lanes.seed, lanes.see1), lanes.see6),
          w.xor(w.xor(lanes.see2, lanes.see3), w.xor(lanes.see4, lanes.see5)))
  }

  const TAIL_SECRET: seq<nat> := [2, 2, 1, 1, 2, 1]

  /** What is left but the last 16 bytes, 16 at a time, from step k on. */
  function Tail<W>(w: Words<W>, text: Text<W>, p: nat, k: nat, seed: W): W
    requires p <= text.length && k <= 6
    decreases 6 - k
  {
    if k < 6 && text.length - p > 16 * k + 16
    then Tail(w, text, p, k + 1, Step(w, text, p + 16 * k, TAIL_SECRET[k], seed))
    else seed
  }

  /** The words that are mixed last. */
  datatype Last<W> = Last(a: W, b: W, seed: W, i: nat)

  function LastOfShort<W>(w: Words<W>, text: Text<W>, seed: W): Last<W>
    requires text.length <= 16
  {
    var n := text.length;
    if n >= 8 then Last(At64(text, 0), At64(text, n - 8), w.xor(seed, w.length(n)), n)
    else if n >= 4 then Last(At32(text, 0), At32(text, n - 4), w.xor(seed, w.length(n)), n)
    else if n > 0 then Last(w.ends(At(text, 0), At(text, n - 1)), At(text, n / 2), seed, n)
    else Last(w.zero, w.zero, seed, 0)
  }

  function SeedOfRounds<W>(w: Words<W>, text: Text<W>, seed: W): W {
    if text.length > 112 then Folded(w, Rounds(w, text, 0, Lanes(seed, seed, seed, seed, seed, seed, seed))) else seed
  }

  /** The last 16 bytes, and the seed of those before. */
  function LastFrom<W>(w: Words<W>, text: Text<W>, end: nat, seed: W): Last<W>
    requires text.length > 16 && end <= text.length
  {
    var n := text.length;
    Last(w.xor(At64(text, n - 16), w.length(n - end)), At64(text, n - 8), seed, n - end)
  }

  function LastOfLong<W>(w: Words<W>, text: Text<W>, seed: W): Last<W>
    requires text.length > 16
  {
    var end := RoundsEnd(text.length, 0);
    LastFrom(w, text, end, Tail(w, text, end, 0, SeedOfRounds(w, text, seed)))
  }

  function Finished<W>(w: Words<W>, last: Last<W>): W {
    var (low, high) := w.mum(w.xor(last.a, w.secret(1)), w.xor(last.b, last.seed));
    w.Mix(w.xor(low, w.secret(7)), w.xor(w.xor(high, w.secret(1)), w.length(last.i)))
  }

  function Started<W>(w: Words<W>, seed: W): W { w.xor(seed, w.Mix(w.xor(seed, w.secret(2)), w.secret(1))) }

  function Hashed<W>(w: Words<W>, text: Text<W>, seed: W): W {
    var started := Started(w, seed);
    Finished(w, if text.length <= 16 then LastOfShort(w, text, started) else LastOfLong(w, text, started))
  }

  // --- as it is worked out --------------------------------------------------

  /** The seven lines of a round. */
  method DoRound<W>(w: Words<W>, text: Text<W>, p: nat, lanes: Lanes<W>) returns (next: Lanes<W>)
    requires p + 112 <= text.length
    ensures next == Round(w, text, p, lanes)
  {
    var seed := w.Mix(w.xor(At64(text, p), w.secret(0)), w.xor(At64(text, p + 8), lanes.seed));
    var see1 := w.Mix(w.xor(At64(text, p + 16), w.secret(1)), w.xor(At64(text, p + 24), lanes.see1));
    var see2 := w.Mix(w.xor(At64(text, p + 32), w.secret(2)), w.xor(At64(text, p + 40), lanes.see2));
    var see3 := w.Mix(w.xor(At64(text, p + 48), w.secret(3)), w.xor(At64(text, p + 56), lanes.see3));
    var see4 := w.Mix(w.xor(At64(text, p + 64), w.secret(4)), w.xor(At64(text, p + 72), lanes.see4));
    var see5 := w.Mix(w.xor(At64(text, p + 80), w.secret(5)), w.xor(At64(text, p + 88), lanes.see5));
    var see6 := w.Mix(w.xor(At64(text, p + 96), w.secret(6)), w.xor(At64(text, p + 104), lanes.see6));
    next := Lanes(seed, see1, see2, see3, see4, see5, see6);
  }

  /** The loop of RAPIDHASH_COMPACT. */
  method CompactRounds<W>(w: Words<W>, text: Text<W>, lanes: Lanes<W>) returns (next: Lanes<W>, p: nat)
    requires text.length > 112
    ensures next == Rounds(w, text, 0, lanes) && p == RoundsEnd(text.length, 0)
  {
    next := DoRound(w, text, 0, lanes);
    p := 112;
    while text.length - p > 112
      invariant p <= text.length && RoundsEnd(text.length, p) == RoundsEnd(text.length, 0)
      invariant Rounds(w, text, p, next) == Rounds(w, text, 0, lanes)
    {
      next := DoRound(w, text, p, next);
      p := p + 112;
    }
  }

  /** The loops of RAPIDHASH_UNROLLED: two rounds at a time, then maybe one. */
  method UnrolledRounds<W>(w: Words<W>, text: Text<W>, lanes: Lanes<W>) returns (next: Lanes<W>, p: nat)
    requires text.length > 112
    ensures next == Rounds(w, text, 0, lanes) && p == RoundsEnd(text.length, 0)
  {
    next, p := lanes, 0;
    while text.length - p > 224
      invariant p <= text.length && RoundsEnd(text.length, p) == RoundsEnd(text.length, 0)
      invariant Rounds(w, text, p, next) == Rounds(w, text, 0, lanes)
    {
      next := DoRound(w, text, p, next);
      next := DoRound(w, text, p + 112, next);
      p := p + 224;
    }
    if text.length - p > 112 {
      next := DoRound(w, text, p, next);
      p := p + 112;
    }
  }

  /** The steps up to the last 16 bytes. */
  method DoTail<W>(w: Words<W>, text: Text<W>, p: nat, start: W) returns (seed: W)
    requires p <= text.length
    ensures seed == Tail(w, text, p, 0, start)
  {
    var i := text.length - p;
    seed := start;
    if i > 16 {
      seed := w.Mix(w.xor(At64(text, p), w.secret(2)), w.xor(At64(text, p + 8), seed));
      if i > 32 {
        seed := w.Mix(w.xor(At64(text, p + 16), w.secret(2)), w.xor(At64(text, p + 24), seed));
        if i > 48 {
          seed := w.Mix(w.xor(At64(text, p + 32), w.secret(1)), w.xor(At64(text, p + 40), seed));
          if i > 64 {
            seed := w.Mix(w.xor(At64(text, p + 48), w.secret(1)), w.xor(At64(text, p + 56), seed));
            if i > 80 {
              seed := w.Mix(w.xor(At64(text, p + 64), w.secret(2)), w.xor(At64(text, p + 72), seed));
              if i > 96 {
                seed := w.Mix(w.xor(At64(text, p + 80), w.secret(1)), w.xor(At64(text, p + 88), seed));
              }
            }
          }
        }
      }
    }
  }

  /** rapidhash_internal and its likes; unrolled: RAPIDHASH_UNROLLED. */
  method Hash<W>(w: Words<W>, text: Text<W>, start: W, unrolled: bool) returns (hash: W)
    ensures hash == Hashed(w, text, start)
  {
    var seed := w.xor(start, w.Mix(w.xor(start, w.secret(2)), w.secret(1)));
    var a, b, i;
    if text.length <= 16 {
      a, b, seed, i := HashShort(w, text, seed);
    } else {
      a, b, seed, i := HashLong(w, text, seed, unrolled);
    }
    a := w.xor(a, w.secret(1));
    b := w.xor(b, seed);
    var (low, high) := w.mum(a, b);
    hash := w.Mix(w.xor(low, w.secret(7)), w.xor(w.xor(high, w.secret(1)), w.length(i)));
  }

  /** Its branch for up to 16 bytes. */
  method HashShort<W>(w: Words<W>, text: Text<W>, start: W) returns (a: W, b: W, seed: W, i: nat)
    requires text.length <= 16
    ensures Last(a, b, seed, i) == LastOfShort(w, text, start)
  {
    var len := text.length;
    seed, i := start, len;
    if len >= 4 {
      seed := w.xor(seed, w.length(len));
      if len >= 8 {
        a, b := At64(text, 0), At64(text, len - 8);
      } else {
        a, b := At32(text, 0), At32(text, len - 4);
      }
    } else if len > 0 {
      a, b := w.ends(At(text, 0), At(text, len - 1)), At(text, len / 2);
    } else {
      a, b := w.zero, w.zero;
    }
  }

  /** Its branch for more. */
  method HashLong<W>(w: Words<W>, text: Text<W>, start: W, unrolled: bool) returns (a: W, b: W, seed: W, i: nat)
    requires text.length > 16
    ensures Last(a, b, seed, i) == LastOfLong(w, text, start)
  {
    var p;
    seed, p := DoRounds(w, text, start, unrolled);
    seed := DoTail(w, text, p, seed);
    a, b, i := LastWords(w, text, p, seed);
  }

  method LastWords<W>(w: Words<W>, text: Text<W>, p: nat, seed: W) returns (a: W, b: W, i: nat)
    requires text.length > 16 && p <= text.length
    ensures Last(a, b, seed, i) == LastFrom(w, text, p, seed)
  {
    i := text.length - p;
    a, b := w.xor(At64(text, p + i - 16), w.length(i)), At64(text, p + i - 8);
  }

  /** Its loop and the seeds in one, for more than 112 bytes. */
  method DoRounds<W>(w: Words<W>, text: Text<W>, start: W, unrolled: bool) returns (seed: W, p: nat)
    ensures p == RoundsEnd(text.length, 0) && seed == SeedOfRounds(w, text, start)
  {
    seed, p := start, 0;
    if text.length > 112 {
      var lanes := Lanes(seed, seed, seed, seed, seed, seed, seed);
      if unrolled {
        lanes, p := UnrolledRounds(w, text, lanes);
      } else {
        lanes, p := CompactRounds(w, text, lanes);
      }
      seed := w.xor(lanes.seed, lanes.see1);
      var see2 := w.xor(lanes.see2, lanes.see3);
      var see4 := w.xor(lanes.see4, lanes.see5);
      seed := w.xor(seed, lanes.see6);
      see2 := w.xor(see2, see4);
      seed := w.xor(seed, see2);
    }
  }

  // --- what the hash depends on ---------------------------------------------

  /** Every read in bounds gives the same; of a byte alone, where there are few. */
  ghost predicate ReadSame<W(!new)>(a: Text<W>, b: Text<W>) {
    && a.length == b.length
    && (forall p: nat | p + 8 <= a.length :: a.word64(p) == b.word64(p))
    && (forall p: nat | p + 4 <= a.length :: a.word32(p) == b.word32(p))
    && (forall p: nat | p < a.length < 4 :: a.byte(p) == b.byte(p))
  }

  lemma StepSame<W(!new)>(w: Words<W>, a: Text<W>, b: Text<W>, p: nat, secret: nat, seed: W)
    requires ReadSame(a, b) && p + 16 <= a.length
    ensures Step(w, a, p, secret, seed) == Step(w, b, p, secret, seed)
  {}

  lemma RoundSame<W(!new)>(w: Words<W>, a: Text<W>, b: Text<W>, p: nat, lanes: Lanes<W>)
    requires ReadSame(a, b) && p + 112 <= a.length
    ensures Round(w, a, p, lanes) == Round(w, b, p, lanes)
  {
    StepSame(w, a, b, p, 0, lanes.seed);
    StepSame(w, a, b, p + 16, 1, lanes.see1);
    StepSame(w, a, b, p + 32, 2, lanes.see2);
    StepSame(w, a, b, p + 48, 3, lanes.see3);
    StepSame(w, a, b, p + 64, 4, lanes.see4);
    StepSame(w, a, b, p + 80, 5, lanes.see5);
    StepSame(w, a, b, p + 96, 6, lanes.see6);
  }

  lemma {:induction false} RoundsSame<W(!new)>(w: Words<W>, a: Text<W>, b: Text<W>, p: nat, lanes: Lanes<W>)
    requires ReadSame(a, b) && p <= a.length
    ensures Rounds(w, a, p, lanes) == Rounds(w, b, p, lanes)
    decreases a.length - p
  {
    if a.length - p > 112 {
      RoundSame(w, a, b, p, lanes);
      RoundsSame(w, a, b, p + 112, Round(w, a, p, lanes));
    }
  }

  lemma {:induction false} TailSame<W(!new)>(w: Words<W>, a: Text<W>, b: Text<W>, p: nat, k: nat, seed: W)
    requires ReadSame(a, b) && p <= a.length && k <= 6
    ensures Tail(w, a, p, k, seed) == Tail(w, b, p, k, seed)
    decreases 6 - k
  {
    if k < 6 && a.length - p > 16 * k + 16 {
      StepSame(w, a, b, p + 16 * k, TAIL_SECRET[k], seed);
      TailSame(w, a, b, p, k + 1, Step(w, a, p + 16 * k, TAIL_SECRET[k], seed));
    }
  }

  lemma SeedSame<W(!new)>(w: Words<W>, a: Text<W>, b: Text<W>, seed: W)
    requires ReadSame(a, b)
    ensures SeedOfRounds(w, a, seed) == SeedOfRounds(w, b, seed)
  {
    RoundsSame(w, a, b, 0, Lanes(seed, seed, seed, seed, seed, seed, seed));
  }

  lemma At64Same<W(!new)>(a: Text<W>, b: Text<W>, p: nat)
    requires ReadSame(a, b) && p + 8 <= a.length
    ensures At64(a, p) == At64(b, p)
  {}

  lemma LastFromSame<W(!new)>(w: Words<W>, a: Text<W>, b: Text<W>, end: nat, seed: W)
    requires ReadSame(a, b) && a.length > 16 && end <= a.length
    ensures LastFrom(w, a, end, seed) == LastFrom(w, b, end, seed)
  {
    At64Same(a, b, a.length - 16);
    At64Same(a, b, a.length - 8);
  }

  lemma LongSame<W(!new)>(w: Words<W>, a: Text<W>, b: Text<W>, seed: W)
    requires ReadSame(a, b) && a.length > 16
    ensures LastOfLong(w, a, seed) == LastOfLong(w, b, seed)
  {
    var end, folded := RoundsEnd(a.length, 0), SeedOfRounds(w, a, seed);
    SeedSame(w, a, b, seed);
    TailSame(w, a, b, end, 0, folded);
    LastFromSame(w, a, b, end, Tail(w, a, end, 0, folded));
  }

  lemma ShortSame<W(!new)>(w: Words<W>, a: Text<W>, b: Text<W>, seed: W)
    requires ReadSame(a, b) && a.length <= 16
    ensures LastOfShort(w, a, seed) == LastOfShort(w, b, seed)
  {}

  lemma SameHash<W(!new)>(w: Words<W>, a: Text<W>, b: Text<W>, seed: W)
    requires ReadSame(a, b)
    ensures Hashed(w, a, seed) == Hashed(w, b, seed)
  {
    if a.length > 16 {
      LongSame(w, a, b, Started(w, seed));
    } else {
      ShortSame(w, a, b, Started(w, seed));
    }
  }
}
