/** The bump allocator as its single user sees it (monotonic_resource.hpp and .cpp). */
module MonotonicArena {
  import opened Options
  import opened MonotonicFit
  import opened Monotonic
  import opened MonotonicRuns

  const DEFAULT_BLOCK_SIZE: nat := 32 * 1024

  class Arena {
    const blockSize: nat
    const buffer: Option<Block>
    var current: nat
    var end: nat
    var blocks: seq<Block>
    ghost var home: nat
    ghost var taken: seq<Range>
    ghost var homes: seq<nat>

    /** The allocator as a state of the concurrent one, with nobody in it. */
    ghost function View(): State
      reads this
    {
      Monotonic.State(blockSize, buffer, current, end, All(blocks), home, taken, homes, [])
    }

    /** The blocks with the buffer of the caller. */
    ghost function All(blocks: seq<Block>): seq<Block> {
      (if buffer.Some? then [buffer.value] else []) + blocks
    }

    ghost predicate Valid()
      reads this
    {
      blockSize > 0 && Blocks(View()) && Installed(View()) && Taken(View())
    }

    /** Starts in a first block of the upstream, at start. */
    constructor (size: nat, start: nat)
      requires Fresh([], Block(start, if size != 0 then size else DEFAULT_BLOCK_SIZE), MAX_ALIGN)
      ensures Valid() && buffer == None && taken == []
      ensures blockSize == (if size != 0 then size else DEFAULT_BLOCK_SIZE) && blocks == [Block(start, blockSize)]
      ensures current == start && end == start + blockSize - 1
    {
      var used := if size != 0 then size else DEFAULT_BLOCK_SIZE;
      blockSize := used;
      buffer := None;
      blocks, taken, homes := [Block(start, used)], [], [];
      current, end, home := start, start + used - 1, 0;
    }

    /** Starts in a buffer of the caller. */
    constructor InBuffer(start: nat, size: nat)
      requires 0 < start && start + size <= ADDRESSES
      ensures Valid() && buffer == Some(Block(start, size)) && taken == [] && blocks == []
      ensures size > 0 ==> current == start && end == start + size - 1
      ensures size == 0 ==> current == 0
      ensures blockSize == if size != 0 then 2 * size else DEFAULT_BLOCK_SIZE
    {
      blockSize := if size != 0 then size * 2 else DEFAULT_BLOCK_SIZE;
      buffer := Some(Block(start, size));
      blocks, taken, homes := [], [], [];
      current := if size == 0 then 0 else start;
      end := if size == 0 then 0 else start + size - 1;
      home := if size == 0 then 1 else 0;
    }

    /** installRange of block k of All(). */
    method InstallRange(ptr: nat, size: nat, ghost k: nat)
      modifies this`current, this`end, this`home
      ensures home == k
      ensures if ptr == 0 || size == 0 then current == 0 && end == 0 else current == ptr && end == ptr + size - 1
    {
      current := 0;
      home := k;
      if ptr == 0 || size == 0 {
        end := 0;
        return;
      }
      end := ptr + size - 1;
      current := ptr;
    }

    /** allocateNewBlock, with the answer of the upstream. */
    method AllocateNewBlock(start: nat)
      requires Valid() && Fresh(All(blocks), Block(start, blockSize), MAX_ALIGN)
      modifies this`current, this`end, this`home, this`blocks
      ensures Valid()
      ensures blocks == old(blocks) + [Block(start, blockSize)]
      ensures current == start && end == start + blockSize - 1 && home == |All(blocks)| - 1
    {
      ghost var s := View();
      blocks := blocks + [Block(start, blockSize)];
      assert All(blocks) == s.blocks + [Block(start, blockSize)];
      InstallRange(start, blockSize, |All(blocks)| - 1);
      forall i | 0 <= i < |taken| ensures Within(All(blocks), home, current, taken[i], homes[i]) {
        assert Within(s.blocks, s.home, s.current, taken[i], homes[i]);
      }
    }

    /** The answer of the upstream to whatever this request may ask of it. */
    ghost predicate MayAnswer(answer: Option<nat>, bytes: nat, alignment: nat)
      reads this
    {
      answer.Some? ==>
        if FitsNewBlock(blockSize, bytes, alignment) then Fresh(All(blocks), Block(answer.value, blockSize), MAX_ALIGN)
        else Fresh(All(blocks), Block(answer.value, bytes), alignment)
    }

    /** allocate: it needs at most one block, only if the range has no room, and
        fails only if the upstream does; what it returns is aligned, in a block
        and apart from all that was returned before. */
    method Allocate(bytes: nat, alignment: nat, answer: Option<nat>) returns (r: Option<nat>)
      requires Valid() && IsAlignment(alignment) && bytes < ADDRESSES && MayAnswer(answer, bytes, alignment)
      modifies this
      ensures Valid()
      ensures r.None? <==> old(Fit(current, end, bytes, alignment)) == 0 && answer.None?
      ensures r.None? ==> blocks == old(blocks) && taken == old(taken) && current == old(current) && end == old(end)
      ensures r.Some? ==> taken == old(taken) + [Range(r.value, bytes, alignment)]
      ensures r.Some? ==> r.value % alignment == 0
      ensures r.Some? ==> forall i | 0 <= i < |old(taken)| :: Apart(Span(old(taken)[i]), Block(r.value, bytes))
      ensures old(Fit(current, end, bytes, alignment)) != 0 ==>
                && blocks == old(blocks) && Some(old(Fit(current, end, bytes, alignment))) == r
                && current == r.value + bytes && end == old(end)
      ensures r.Some? && old(Fit(current, end, bytes, alignment)) == 0 ==>
                if FitsNewBlock(blockSize, bytes, alignment) then
                  && blocks == old(blocks) + [Block(answer.value, blockSize)]
                  && r.value == Fit(answer.value, answer.value + blockSize - 1, bytes, alignment)
                  && current == r.value + bytes && end == answer.value + blockSize - 1
                else
                  && blocks == old(blocks) + [Block(answer.value, bytes)] && r == answer
                  && current == old(current) && end == old(end)
    {
      ghost var started := taken;
      while true
        invariant Valid() && taken == started
        invariant (blocks, current, end) == old((blocks, current, end)) ||
                  (old(Fit(current, end, bytes, alignment)) == 0 && answer.Some? &&
                   FitsNewBlock(blockSize, bytes, alignment) && blocks == old(blocks) + [Block(answer.value, blockSize)] &&
                   current == answer.value && end == answer.value + blockSize - 1 &&
                   Fit(current, end, bytes, alignment) != 0)
        decreases if Fit(current, end, bytes, alignment) != 0 then 0 else 1
      {
        var aligned := Fit(current, end, bytes, alignment);
        if aligned != 0 {
          Take(aligned, bytes, alignment);
          return Some(aligned);
        }
        if answer.None? {
          return None;
        }
        if !FitsNewBlock(blockSize, bytes, alignment) {
          TakeCustomBlock(answer.value, bytes, alignment);
          return answer;
        }
        FreshBlockFits(Block(answer.value, blockSize), bytes, alignment);
        AllocateNewBlock(answer.value);
      }
    }

    /** The exchange that moves current behind what is returned. */
    method Take(aligned: nat, bytes: nat, alignment: nat)
      requires Valid() && IsAlignment(alignment) && aligned == Fit(current, end, bytes, alignment) != 0
      modifies this`current, this`taken, this`homes
      ensures Valid() && taken == old(taken) + [Range(aligned, bytes, alignment)] && aligned % alignment == 0
      ensures current == aligned + bytes
    {
      ghost var s := View().(threads := [Thread(Swap, bytes, alignment, current, end, home, 0)]);
      FitIsExact(current, end, bytes, alignment, 0);
      assert Taken(s) && Installed(s) && Blocks(s);
      TakingTaken(s, 0, aligned);
      current := aligned + bytes;
      taken := taken + [Range(aligned, bytes, alignment)];
      homes := homes + [home];
      assert View() == Taking(s, 0, aligned).(threads := []);
    }

    /** allocateCustomBlock. */
    method TakeCustomBlock(start: nat, bytes: nat, alignment: nat)
      requires Valid() && Fresh(All(blocks), Block(start, bytes), alignment)
      modifies this`blocks, this`taken, this`homes
      ensures Valid() && taken == old(taken) + [Range(start, bytes, alignment)] && blocks == old(blocks) + [Block(start, bytes)]
    {
      ghost var s := View().(threads := [Thread(FetchCustom, bytes, alignment, 0, 0, 0, 0)]);
      ghost var l := s.threads[0];
      assert Taken(s) && Installed(s) && Blocks(s);
      AddingBlocks(s, 0, Block(start, bytes), [Range(start, bytes, alignment)], l, alignment);
      AddingTaken(s, 0, Block(start, bytes), [Range(start, bytes, alignment)], l);
      blocks := blocks + [Block(start, bytes)];
      taken := taken + [Range(start, bytes, alignment)];
      homes := homes + [|s.blocks|];
      assert All(blocks) == s.blocks + [Block(start, bytes)];
      assert View() == Adding(s, 0, Block(start, bytes), [Range(start, bytes, alignment)], l).(threads := []);
    }

    /** Nothing was returned, and the range is all of the buffer, or of the first
        block, but its last byte. */
    ghost predicate InstalledFirst()
      reads this
    {
      taken == [] && if All(blocks) == [] || All(blocks)[0].size == 0 then current == 0
                     else current == All(blocks)[0].start && end == All(blocks)[0].start + All(blocks)[0].size - 1
    }

    /** reset: the blocks but the first go back to the upstream, without a
        buffer, and all of them with one. */
    method Reset() returns (freed: seq<Block>)
      requires Valid()
      modifies this
      ensures Valid() && View() == Restart(old(View()), false)
      ensures old(blocks) == blocks + freed && |blocks| == (if buffer.None? && old(blocks) != [] then 1 else 0)
      ensures InstalledFirst()
    {
      ghost var s := View();
      var kept := if buffer.None? && blocks != [] then 1 else 0;
      freed := blocks[kept..];
      blocks := blocks[..kept];
      taken, homes := [], [];
      assert All(blocks) == Kept(s, false);
      InstallKept();
    }

    /** The range of reset: the buffer, or else the block that is kept. */
    method InstallKept()
      modifies this`current, this`end, this`home
      ensures var first := if buffer.Some? then buffer else if blocks != [] then Some(blocks[0]) else None;
        if first.None? then current == 0 && end == 0 && home == 0
        else if first.value.start == 0 || first.value.size == 0
        then current == 0 && end == 0 && home == if first.value.size == 0 then 1 else 0
        else current == first.value.start && end == first.value.start + first.value.size - 1 && home == 0
    {
      if buffer.Some? {
        InstallRange(buffer.value.start, buffer.value.size, if buffer.value.size == 0 then 1 else 0);
      } else if blocks != [] {
        InstallRange(blocks[0].start, blocks[0].size, if blocks[0].size == 0 then 1 else 0);
      } else {
        InstallRange(0, 0, 0);
      }
    }

    /** release: all blocks go back. */
    method Release() returns (freed: seq<Block>)
      requires Valid()
      modifies this
      ensures Valid() && View() == Restart(old(View()), true)
      ensures freed == old(blocks) && blocks == [] && InstalledFirst()
    {
      ghost var s := View();
      freed := blocks;
      blocks := [];
      taken, homes := [], [];
      if buffer.Some? {
        InstallRange(buffer.value.start, buffer.value.size, if buffer.value.size == 0 then 1 else 0);
      } else {
        InstallRange(0, 0, 0);
      }
      assert All(blocks) == Kept(s, true);
    }
  }
}
