/**
 rapidhash of bytes: as they are, in lower case, and at compile time, where a
 char may be signed (rapidhash.h, rapidhash-constexpr.h).
 */
module RapidTexts {
  import opened RapidWords
  import opened RapidHash

  /** rapidhash_internal, rapidhash_internal_lowercase, and
      rapidhash_internal_constexpr of a char that is signed. */
  datatype Reading = Plain | Lowercase | Signed

  function Read64(reading: Reading, bytes: seq<Byte>, p: nat): Word
    requires p + 8 <= |bytes|
  {
    var chunk := Word8(bytes[p], bytes[p + 1], bytes[p + 2], bytes[p + 3], bytes[p + 4], bytes[p + 5], bytes[p + 6], bytes[p + 7]);
    if reading.Lowercase? then Swar64(chunk) else chunk
  }

  function Read32(reading: Reading, bytes: seq<Byte>, p: nat): Word
    requires p + 4 <= |bytes|
  {
    var chunk := Word4(bytes[p], bytes[p + 1], bytes[p + 2], bytes[p + 3]);
    (if reading.Lowercase? then Swar32(chunk) else chunk) as Word
  }

  function Read1(reading: Reading, byte: Byte): Word {
    match reading
    case Plain => byte as Word
    case Lowercase => Lower(byte) as Word
    case Signed => if byte >= 0x80 then 0xFFFF_FFFF_FFFF_FF00 | (byte as Word) else byte as Word
  }

  function TextOf(reading: Reading, bytes: seq<Byte>): Text<Word> {
    Text(|bytes|, (p: nat) => if p + 8 <= |bytes| then Read64(reading, bytes, p) else 0,
         (p: nat) => if p + 4 <= |bytes| then Read32(reading, bytes, p) else 0,
         (p: nat) => if p < |bytes| then Read1(reading, bytes[p]) else 0)
  }

  /** The hash of the text in lower case, which is never written down. */
  lemma LowercaseHash(w: Words<Word>, bytes: seq<Byte>, seed: Word)
    ensures Hashed(w, TextOf(Lowercase, bytes), seed) == Hashed(w, TextOf(Plain, LowerAll(bytes)), seed)
  {
    forall p: nat | p + 8 <= |bytes| ensures Read64(Lowercase, bytes, p) == Read64(Plain, LowerAll(bytes), p) {
      Swar64IsLower(bytes[p], bytes[p + 1], bytes[p + 2], bytes[p + 3], bytes[p + 4], bytes[p + 5], bytes[p + 6], bytes[p + 7]);
    }
    forall p: nat | p + 4 <= |bytes| ensures Read32(Lowercase, bytes, p) == Read32(Plain, LowerAll(bytes), p) {
      Swar32IsLower(bytes[p], bytes[p + 1], bytes[p + 2], bytes[p + 3]);
    }
    SameHash(w, TextOf(Lowercase, bytes), TextOf(Plain, LowerAll(bytes)), seed);
  }

  // --- signed chars ---------------------------------------------------------

  function LowWord(product: bv128): Word { (product & 0xFFFF_FFFF_FFFF_FFFF) as Word }

  function HighWord(product: bv128): Word { (product >> 64) as Word }

  /** rapid_mum where there is a type of 128 bits. */
  function Product(a: Word, b: Word): (Word, Word) {
    var product := (a as bv128) * (b as bv128);
    (LowWord(product), HighWord(product))
  }

  /** A length in 64 bits. */
  function LengthWord(n: nat): Word { if n == 0 then 0 else LengthWord(n - 1) + 1 }

  const SECRET: seq<Word> := [
    0x2d358dccaa6c78a5, 0x8bb84b93962eacc9, 0x4b33a62ed433d4a3, 0x4d5a2da51de1aa47,
    0xa0761d6478bd642f, 0xe7037ed1a0b428db, 0x90ed1765281c388c, 0xaaaaaaaaaaaaaaaa]

  function Ends(first: Word, last: Word): Word { (first << 45) | last }

  const RAPID: Words<Word> := Words(Product, (a, b) => a ^ b, Ends,
    LengthWord, 0, (k: nat) => if k < 8 then SECRET[k] else 0)

  /** Bytes above ASCII are among those only where none is read alone. */
  predicate ReadsAscii(bytes: seq<Byte>) { |bytes| < 4 ==> forall k | 0 <= k < |bytes| :: bytes[k] < 0x80 }

  lemma SignedByte(byte: Byte)
    ensures Read1(Signed, byte) == Read1(Plain, byte) <==> byte < 0x80
  {}

  /** The two ends in one word tell the readings of either apart. */
  lemma SignedEnds(first: Byte, last: Byte)
    ensures Ends(Read1(Signed, first), Read1(Signed, last)) == Ends(Read1(Plain, first), Read1(Plain, last)) <==>
            first < 0x80 && last < 0x80
  {}

  lemma AsciiReadsSame(bytes: seq<Byte>)
    requires ReadsAscii(bytes)
    ensures ReadSame(TextOf(Signed, bytes), TextOf(Plain, bytes))
  {
    forall p: nat | p < |bytes| < 4 ensures Read1(Signed, bytes[p]) == Read1(Plain, bytes[p]) {
      SignedByte(bytes[p]);
    }
  }

  lemma OtherReadsDiffer(w: Words<Word>, bytes: seq<Byte>, seed: Word)
    requires w.ends == Ends && !ReadsAscii(bytes)
    ensures LastOfShort(w, TextOf(Signed, bytes), seed) != LastOfShort(w, TextOf(Plain, bytes), seed)
  {
    var n := |bytes|;
    var k :| 0 <= k < n && bytes[k] >= 0x80;
    var signed, plain := LastOfShort(w, TextOf(Signed, bytes), seed), LastOfShort(w, TextOf(Plain, bytes), seed);
    assert signed.b == Read1(Signed, bytes[n / 2]) && plain.b == Read1(Plain, bytes[n / 2]);
    assert signed.a == Ends(Read1(Signed, bytes[0]), Read1(Signed, bytes[n - 1]));
    assert plain.a == Ends(Read1(Plain, bytes[0]), Read1(Plain, bytes[n - 1]));
    SignedByte(bytes[n / 2]);
    SignedEnds(bytes[0], bytes[n - 1]);
  }

  /** What is mixed last is the same at compile time and at run time exactly if
      no byte that is read alone is above ASCII. */
  lemma SignedShort(w: Words<Word>, bytes: seq<Byte>, seed: Word)
    requires |bytes| <= 16 && w.ends == Ends
    ensures LastOfShort(w, TextOf(Signed, bytes), seed) == LastOfShort(w, TextOf(Plain, bytes), seed) <==> ReadsAscii(bytes)
  {
    if ReadsAscii(bytes) {
      AsciiReadsSame(bytes);
      ShortSame(w, TextOf(Signed, bytes), TextOf(Plain, bytes), seed);
    } else {
      OtherReadsDiffer(w, bytes, seed);
    }
  }

  /** The compile-time hash is the run-time hash then. */
  lemma SignedHash(w: Words<Word>, bytes: seq<Byte>, seed: Word)
    requires ReadsAscii(bytes)
    ensures Hashed(w, TextOf(Signed, bytes), seed) == Hashed(w, TextOf(Plain, bytes), seed)
  {
    AsciiReadsSame(bytes);
    SameHash(w, TextOf(Signed, bytes), TextOf(Plain, bytes), seed);
  }

  // --- one byte above ASCII -------------------------------------------------

  lemma StartedOfZero()
    ensures Started(RAPID, 0) == 0x422765567d8fbfd6
  {
    assert Product(0x4b33a62ed433d4a3, 0x8bb84b93962eacc9) == (0x6b2c4bd826d977fb, 0x290b2e8e5b56c82d);
  }

  lemma LastOf80(seed: Word)
    ensures LastOfShort(RAPID, TextOf(Plain, [0x80]), seed) == Last(0x10000000000080, 0x80, seed, 1)
    ensures LastOfShort(RAPID, TextOf(Signed, [0x80]), seed) == Last(0xffffffffffffff80, 0xffffffffffffff80, seed, 1)
  {
    assert Ends(0x80, 0x80) == 0x10000000000080 && Ends(0xffffffffffffff80, 0xffffffffffffff80) == 0xffffffffffffff80;
    assert Read1(Plain, 0x80) == 0x80 && Read1(Signed, 0x80) == 0xffffffffffffff80;
  }

  /** The end of the hash, one operation at a time. */
  lemma FinishedFrom(w: Words<Word>, last: Last<Word>, x: Word, y: Word, low: Word, high: Word, x': Word, y': Word,
                     low': Word, high': Word)
    requires w.xor(last.a, w.secret(1)) == x && w.xor(last.b, last.seed) == y && w.mum(x, y) == (low, high)
    requires w.xor(low, w.secret(7)) == x' && w.xor(w.xor(high, w.secret(1)), w.length(last.i)) == y'
    requires w.mum(x', y') == (low', high')
    ensures Finished(w, last) == w.xor(low', high')
  {}

  lemma PlainFinish()
    ensures Finished(RAPID, Last(0x10000000000080, 0x80, 0x422765567d8fbfd6, 1)) == 0xc1efc21089b01264
  {
    assert Product(0x8ba84b93962eac49, 0x422765567d8fbf56) == (0xb177dc5927ff5786, 0x2416e168250e1fa6);
    assert Product(0x1bdd76f38d55fd2c, 0xafaeaafbb320b36e) == (0xd2f0a56344788ce8, 0x131f6773cdc89e8c);
    assert LengthWord(1) == 1;
    FinishedFrom(RAPID, Last(0x10000000000080, 0x80, 0x422765567d8fbfd6, 1), 0x8ba84b93962eac49, 0x422765567d8fbf56,
                 0xb177dc5927ff5786, 0x2416e168250e1fa6, 0x1bdd76f38d55fd2c, 0xafaeaafbb320b36e, 0xd2f0a56344788ce8, 0x131f6773cdc89e8c);
  }

  lemma SignedFinish()
    ensures Finished(RAPID, Last(0xffffffffffffff80, 0xffffffffffffff80, 0x422765567d8fbfd6, 1)) == 0x67ab6ed30d86ec2a
  {
    assert Product(0x7447b46c69d15349, 0xbdd89aa982704056) == (0xec3e33f063143a86, 0x563b52f466b78c8b);
    assert Product(0x4694995ac9be902c, 0xdd831967f0992043) == (0x5ab903bc09313b84, 0x3d126d6f04b7d7ae);
    assert LengthWord(1) == 1;
    FinishedFrom(RAPID, Last(0xffffffffffffff80, 0xffffffffffffff80, 0x422765567d8fbfd6, 1), 0x7447b46c69d15349, 0xbdd89aa982704056,
                 0xec3e33f063143a86, 0x563b52f466b78c8b, 0x4694995ac9be902c, 0xdd831967f0992043, 0x5ab903bc09313b84, 0x3d126d6f04b7d7ae);
  }

  /** With it, the hash of one byte differs. */
  lemma SignedHashDiffers()
    ensures !ReadsAscii([0x80])
    ensures Hashed(RAPID, TextOf(Signed, [0x80]), 0) != Hashed(RAPID, TextOf(Plain, [0x80]), 0)
  {
    StartedOfZero();
    LastOf80(Started(RAPID, 0));
    PlainFinish();
    SignedFinish();
    assert [0x80 as Byte][0] >= 0x80;
  }
}
