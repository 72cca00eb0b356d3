/** The words rapidhash reads, and the ones in lower case (rapidhash.h). */
module RapidWords {
  type Byte = bv8
  type Word = bv64

  function Lower(c: Byte): Byte { if 0x41 <= c <= 0x5A then c | 0x20 else c }

  function LowerAll(text: seq<Byte>): (lower: seq<Byte>)
    ensures |lower| == |text| && forall k | 0 <= k < |text| :: lower[k] == Lower(text[k])
  {
    seq(|text|, k requires 0 <= k < |text| => Lower(text[k]))
  }

  /** Little endian. */
  function Word4(b0: Byte, b1: Byte, b2: Byte, b3: Byte): bv32 {
    (b0 as bv32) | ((b1 as bv32) << 8) | ((b2 as bv32) << 16) | ((b3 as bv32) << 24)
  }

  function Word8(b0: Byte, b1: Byte, b2: Byte, b3: Byte, b4: Byte, b5: Byte, b6: Byte, b7: Byte): Word {
    (b0 as Word) | ((b1 as Word) << 8) | ((b2 as Word) << 16) | ((b3 as Word) << 24)
    | ((b4 as Word) << 32) | ((b5 as Word) << 40) | ((b6 as Word) << 48) | ((b7 as Word) << 56)
  }

  /** rapid_read32_lowercase of the word that was read. */
  function Swar32(chunk: bv32): bv32 {
    var msbMask: bv32 := 0x8080_8080;
    var low7 := chunk & !msbMask;
    var atLeastA := low7 + (msbMask - 0x4141_4141);
    var beyondZ := low7 + (msbMask - 0x5B5B_5B5B);
    var uppercase := (atLeastA ^ beyondZ) & msbMask & !chunk;
    chunk | (uppercase >> 2)
  }

  /** rapid_read64_lowercase of the word that was read. */
  function Swar64(chunk: Word): Word {
    var msbMask: Word := 0x8080_8080_8080_8080;
    var low7 := chunk & !msbMask;
    var atLeastA := low7 + (msbMask - 0x4141_4141_4141_4141);
    var beyondZ := low7 + (msbMask - 0x5B5B_5B5B_5B5B_5B5B);
    var uppercase := (atLeastA ^ beyondZ) & msbMask & !chunk;
    chunk | (uppercase >> 2)
  }

  lemma Swar32IsLower(b0: Byte, b1: Byte, b2: Byte, b3: Byte)
    ensures Swar32(Word4(b0, b1, b2, b3)) == Word4(Lower(b0), Lower(b1), Lower(b2), Lower(b3))
  {}

  function Joined(low: bv32, high: bv32): Word { (low as Word) | ((high as Word) << 32) }

  /** No carry goes from one half to the other. */
  lemma SwarByHalves(low: bv32, high: bv32)
    ensures Swar64(Joined(low, high)) == Joined(Swar32(low), Swar32(high))
  {}

  lemma BytesByHalves(b0: Byte, b1: Byte, b2: Byte, b3: Byte, b4: Byte, b5: Byte, b6: Byte, b7: Byte)
    ensures Word8(b0, b1, b2, b3, b4, b5, b6, b7) == Joined(Word4(b0, b1, b2, b3), Word4(b4, b5, b6, b7))
  {}

  lemma Swar64IsLower(b0: Byte, b1: Byte, b2: Byte, b3: Byte, b4: Byte, b5: Byte, b6: Byte, b7: Byte)
    ensures Swar64(Word8(b0, b1, b2, b3, b4, b5, b6, b7)) ==
            Word8(Lower(b0), Lower(b1), Lower(b2), Lower(b3), Lower(b4), Lower(b5), Lower(b6), Lower(b7))
  {
    BytesByHalves(b0, b1, b2, b3, b4, b5, b6, b7);
    SwarByHalves(Word4(b0, b1, b2, b3), Word4(b4, b5, b6, b7));
    Swar32IsLower(b0, b1, b2, b3);
    Swar32IsLower(b4, b5, b6, b7);
    BytesByHalves(Lower(b0), Lower(b1), Lower(b2), Lower(b3), Lower(b4), Lower(b5), Lower(b6), Lower(b7));
  }
}
