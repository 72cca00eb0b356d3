/** The address arithmetic of the bump allocator (monotonic_resource.hpp), on
    64-bit addresses that wrap around. A null pointer is address 0. */
module MonotonicFit {
  import opened Options
  import Division

  const ADDRESSES: nat := 0x1_0000_0000_0000_0000
  const MAX_ALIGN: nat := 16

  datatype Block = Block(start: nat, size: nat) {
    predicate Valid() { 0 < start && start + size <= ADDRESSES }
    /** The last byte: where the range of the block ends. */
    function Last(): int { start + size - 1 }
  }

  /** What a caller got: bytes from start on. */
  datatype Range = Range(start: nat, bytes: nat, alignment: nat)

  predicate Apart(a: Block, b: Block) {
    a.size == 0 || b.size == 0 || a.start + a.size <= b.start || b.start + b.size <= a.start
  }

  function Span(r: Range): Block { Block(r.start, r.bytes) }

  /** An alignment is a power of two. */
  ghost predicate IsAlignment(a: nat) { 0 < a < ADDRESSES && exists k: nat :: a == Power(k) }

  function Power(k: nat): (p: nat)
    ensures p >= 1
  {
    if k == 0 then 1 else 2 * Power(k - 1)
  }

  /** address & ~(alignment - 1). */
  function AlignedDown(address: nat, alignment: nat): nat
    requires alignment > 0
  {
    address - address % alignment
  }

  function AlignedUp(address: nat, alignment: nat): nat
    requires alignment > 0
  {
    AlignedDown((address + alignment - 1) % ADDRESSES, alignment)
  }

  /** fit: where bytes with that alignment start between current and end, 0 if nowhere. */
  function Fit(current: nat, end: nat, bytes: nat, alignment: nat): nat
    requires alignment > 0
  {
    if current == 0 then 0
    else
      var aligned := AlignedUp(current, alignment);
      if aligned < current || aligned > end || bytes > end - aligned then 0 else aligned
  }

  function FitsNewBlock(blockSize: nat, bytes: nat, alignment: nat): bool {
    bytes < blockSize && (alignment <= MAX_ALIGN || alignment <= blockSize - bytes)
  }

  lemma {:induction false} PowersDivide(j: nat, k: nat)
    requires j <= k
    ensures Power(k) % Power(j) == 0
  {
    if j < k {
      PowersDivide(j, k - 1);
      var d := Power(k - 1) / Power(j);
      assert Power(k) == 2 * d * Power(j);
      MultipleRemainder(2 * d, Power(j));
    } else {
      MultipleRemainder(1, Power(j));
    }
  }

  lemma MultipleRemainder(d: nat, n: nat)
    requires n > 0
    ensures d * n % n == 0
  {
    Division.Unique(d * n, n, d, 0);
  }

  /** The least multiple from c on. */
  lemma AlignedDownIsLeast(c: nat, alignment: nat, p: nat)
    requires alignment > 0
    ensures var m := AlignedDown(c + alignment - 1, alignment);
      && m % alignment == 0 && c <= m < c + alignment
      && (c <= p && p % alignment == 0 ==> m <= p)
  {
    var x := c + alignment - 1;
    var q, q' := x / alignment, p / alignment;
    assert x == q * alignment + x % alignment && p == q' * alignment + p % alignment;
    MultipleRemainder(q, alignment);
    assert (q - q') * alignment == q * alignment - q' * alignment;
    if q > q' {
      Division.AtLeastOnce(q - q', alignment);
    }
  }

  lemma AlignedDownIsBelow(x: nat, alignment: nat)
    requires alignment > 0
    ensures AlignedDown(x, alignment) <= x
  {}

  lemma WrapIsFound(current: nat, alignment: nat)
    requires 0 < alignment < ADDRESSES && 0 < current < ADDRESSES
    ensures current + alignment - 1 < ADDRESSES ==> AlignedUp(current, alignment) == AlignedDown(current + alignment - 1, alignment)
    ensures current + alignment - 1 >= ADDRESSES ==> AlignedUp(current, alignment) < current
  {
    var x := current + alignment - 1;
    if x >= ADDRESSES {
      assert x % ADDRESSES == x - ADDRESSES;
      AlignedDownIsBelow(x - ADDRESSES, alignment);
    } else {
      assert x % ADDRESSES == x;
    }
  }

  /** What fit finds is the first multiple of the alignment from current on,
      with room up to end; it fails only where no multiple below the wrap has. */
  lemma FitIsExact(current: nat, end: nat, bytes: nat, alignment: nat, p: nat)
    requires 0 < alignment < ADDRESSES && 0 < current < ADDRESSES
    ensures var r := Fit(current, end, bytes, alignment);
      && (r != 0 ==> current <= r < current + alignment && r % alignment == 0 && r + bytes <= end)
      && (r != 0 && current <= p && p % alignment == 0 ==> r <= p)
      && (r == 0 && current <= p && p % alignment == 0 && p + alignment <= ADDRESSES ==> p + bytes > end)
  {
    WrapIsFound(current, alignment);
    AlignedDownIsLeast(current, alignment, p);
  }

  lemma SmallAlignments(alignment: nat)
    requires IsAlignment(alignment) && alignment <= MAX_ALIGN
    ensures MAX_ALIGN % alignment == 0
  {
    var k: nat :| alignment == Power(k);
    assert Power(4) == MAX_ALIGN && Power(5) == 32;
    if k >= 5 {
      PowersGrow(5, k);
    } else {
      PowersDivide(k, 4);
    }
  }

  lemma {:induction false} PowersGrow(j: nat, k: nat)
    requires j <= k
    ensures Power(j) <= Power(k)
  {
    if j < k {
      PowersGrow(j, k - 1);
    }
  }

  lemma {:induction false} MultiplesOfMultiples(x: nat, m: nat, n: nat)
    requires m > 0 && n > 0 && x % m == 0 && m % n == 0
    ensures x % n == 0
  {
    assert x == x / m * m && m == m / n * n;
    assert x == x / m * (m / n) * n;
    MultipleRemainder(x / m * (m / n), n);
  }

  /** A fresh block has room for every request that fitsNewBlock accepts. */
  lemma FreshBlockFits(block: Block, bytes: nat, alignment: nat)
    requires block.Valid() && block.start % MAX_ALIGN == 0 && IsAlignment(alignment) && alignment < ADDRESSES
    requires FitsNewBlock(block.size, bytes, alignment)
    ensures Fit(block.start, block.Last(), bytes, alignment) != 0
  {
    FitIsExact(block.start, block.Last(), bytes, alignment, block.start);
    WrapIsFound(block.start, alignment);
    if alignment <= MAX_ALIGN {
      SmallAlignments(alignment);
      MultiplesOfMultiples(block.start, MAX_ALIGN, alignment);
    }
    AlignedDownIsLeast(block.start, alignment, block.start);
  }
}
