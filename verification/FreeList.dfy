/**
 The indices that destroy gave back, in chunks (FreeList of entity.hpp). The
 memory of emptied chunks is not kept apart from new memory.
 */
module FreeList {
  import opened Options
  import Ranks

  const CAPACITY: nat := 4092

  /** indices: the memory of a chunk, of which the first count are in it. */
  datatype Chunk = Chunk(count: nat, indices: seq<nat>)

  const NEW_CHUNK: Chunk := Chunk(0, seq(CAPACITY, _ => 0))

  /** left: how many chunks there are to take, from the back, below zero when
      several threads went for the last one; fill: where add writes in the last
      chunk; published: how many chunks there are. */
  datatype FreeList = FreeList(left: int, chunks: seq<Chunk>, fill: nat, published: nat)

  const EMPTY: FreeList := FreeList(0, [], 0, 0)

  /** The index at a place of the list. */
  function At(chunks: seq<Chunk>, place: nat): nat
    requires place < |chunks| * CAPACITY && Sized(chunks)
  {
    assert place / CAPACITY < |chunks|;
    chunks[place / CAPACITY].indices[place % CAPACITY]
  }

  predicate Sized(chunks: seq<Chunk>) { forall k | 0 <= k < |chunks| :: |chunks[k].indices| == CAPACITY }

  /** The first size indices of the chunks, in their order. */
  function Contents(chunks: seq<Chunk>, size: nat): (c: seq<nat>)
    requires size <= |chunks| * CAPACITY && Sized(chunks)
    ensures |c| == size
  {
    seq(size, p requires 0 <= p < size => At(chunks, p))
  }

  /** Every chunk is full but the last one, which is not empty. */
  predicate Full(chunks: seq<Chunk>) {
    && Sized(chunks)
    && (forall k | 0 <= k < |chunks| :: 0 < chunks[k].count <= CAPACITY)
    && (forall k | 0 <= k < |chunks| - 1 :: chunks[k].count == CAPACITY)
  }

  /** How many indices are in chunks that are full but the last. */
  function SizeOf(chunks: seq<Chunk>): nat {
    if chunks == [] then 0 else (|chunks| - 1) * CAPACITY + chunks[|chunks| - 1].count
  }

  /** Between the calls of give; take may have taken chunks from the back. */
  predicate Closed(list: FreeList) {
    && Full(list.chunks) && list.published == |list.chunks| && list.left <= list.published
    && list.fill == if list.chunks == [] then 0 else list.chunks[|list.chunks| - 1].count
  }

  function LeftChunks(list: FreeList): seq<Chunk>
    requires list.left <= |list.chunks|
  {
    if list.left <= 0 then [] else list.chunks[..list.left]
  }

  /** What is there to be handed out. */
  function Listed(list: FreeList): seq<nat>
    requires Closed(list)
  {
    Contents(LeftChunks(list), SizeOf(LeftChunks(list)))
  }

  /** From open to close: what is there with what was added. */
  predicate Opened(list: FreeList) {
    && Sized(list.chunks) && list.published == |list.chunks|
    && (forall k | 0 <= k < |list.chunks| - 1 :: list.chunks[k].count == CAPACITY)
    && (if list.chunks == [] then list.fill == 0 else 0 < list.fill <= CAPACITY)
  }

  function Added(list: FreeList): seq<nat>
    requires Opened(list)
  {
    Contents(list.chunks, if list.chunks == [] then 0 else (|list.chunks| - 1) * CAPACITY + list.fill)
  }

  /** take: the last chunk that is left, to one thread. looked: the look at left
      before found one, maybe since gone. */
  method Take(list: FreeList, looked: bool) returns (list': FreeList, taken: Option<Chunk>)
    requires Closed(list)
    ensures Closed(list') && list'.chunks == list.chunks
    ensures taken.None? ==> list.left <= 0 && Listed(list') == Listed(list)
    ensures taken.Some? ==> 0 < taken.value.count <= |taken.value.indices|
    ensures taken.Some? ==> Listed(list) == Listed(list') + taken.value.indices[..taken.value.count]
  {
    if list.left <= 0 && !looked {
      return list, None;
    }
    var before := list.left;
    list' := list.(left := list.left - 1);
    LeftGoesDown(list);
    if before <= 0 {
      return list', None;
    }
    taken := Some(list.chunks[before - 1]);
  }

  /** What goes with the fetch_sub of take: the indices of the last chunk left. */
  function Leaving(list: FreeList): seq<nat>
    requires Closed(list)
  {
    if list.left <= 0 then []
    else var chunk := list.chunks[list.left - 1]; chunk.indices[..chunk.count]
  }

  lemma LeftGoesDown(list: FreeList)
    requires Closed(list)
    ensures var less := list.(left := list.left - 1); Closed(less) && Listed(list) == Listed(less) + Leaving(list)
  {
    if list.left > 0 {
      LastChunk(list.chunks[..list.left]);
      assert list.chunks[..list.left][..list.left - 1] == list.chunks[..list.left - 1];
    }
  }

  /** The indices of full chunks are those before the last one and those in it. */
  lemma LastChunk(chunks: seq<Chunk>)
    requires Full(chunks) && chunks != []
    ensures Full(chunks[..|chunks| - 1])
    ensures var last := chunks[|chunks| - 1];
      Contents(chunks, SizeOf(chunks)) ==
      Contents(chunks[..|chunks| - 1], SizeOf(chunks[..|chunks| - 1])) + last.indices[..last.count]
  {
    var init, last := chunks[..|chunks| - 1], chunks[|chunks| - 1];
    assert SizeOf(init) == |init| * CAPACITY;
    forall p | 0 <= p < SizeOf(chunks)
      ensures At(chunks, p) == (Contents(init, SizeOf(init)) + last.indices[..last.count])[p]
    {
      PlaceOf(p, |init|);
    }
  }

  lemma PlaceOf(place: nat, k: nat)
    ensures place < k * CAPACITY ==> place / CAPACITY < k
    ensures k * CAPACITY <= place < (k + 1) * CAPACITY ==> place / CAPACITY == k && place % CAPACITY == place - k * CAPACITY
  {}

  /** size: what the chunks that are left have. */
  method Size(list: FreeList) returns (indices: nat)
    requires Closed(list)
    ensures indices == |Listed(list)|
  {
    indices := 0;
    for k := 0 to |LeftChunks(list)|
      invariant indices == SizeOf(LeftChunks(list)[..k])
    {
      assert LeftChunks(list)[..k + 1][..k] == LeftChunks(list)[..k];
      indices := indices + list.chunks[k].count;
    }
    assert LeftChunks(list)[..|LeftChunks(list)|] == LeftChunks(list);
  }

  // --- give -----------------------------------------------------------------

  method Open(list: FreeList) returns (open: FreeList)
    requires Closed(list)
    ensures Counted(open) && Full(open.chunks) && Added(open) == Listed(list) && SizeOf(open.chunks) == |Added(open)|
  {
    var kept := if list.left > 0 then list.left else 0;
    open := list;
    if kept < list.published {
      open := Refilled(list.(chunks := list.chunks[..kept]));
    } else {
      assert list.chunks[..kept] == list.chunks;
    }
  }

  /** refill: fill and published for the last chunk as its count has it. */
  function Refilled(list: FreeList): FreeList {
    list.(published := |list.chunks|, fill := if list.chunks == [] then 0 else list.chunks[|list.chunks| - 1].count)
  }

  method Add(list: FreeList, index: nat) returns (more: FreeList)
    requires Opened(list)
    ensures Opened(more) && Added(more) == Added(list) + [index]
  {
    var last := |list.chunks| - 1;
    if list.chunks == [] || list.fill == CAPACITY {
      var chunks := if list.chunks == [] then [] else list.chunks[last := list.chunks[last].(count := CAPACITY)];
      var chunk := NEW_CHUNK.(indices := NEW_CHUNK.indices[0 := index]);
      more := list.(chunks := chunks + [chunk], published := |chunks| + 1, fill := 1);
      AddedInNew(list, more, index);
    } else {
      var chunk := list.chunks[last].(indices := list.chunks[last].indices[list.fill := index]);
      more := list.(chunks := list.chunks[last := chunk], fill := list.fill + 1);
      AddedInLast(list, more, index);
    }
  }

  lemma AddedInNew(list: FreeList, more: FreeList, index: nat)
    requires Opened(list) && Opened(more) && |more.chunks| == |list.chunks| + 1 && more.fill == 1
    requires list.chunks == [] || list.fill == CAPACITY
    requires forall k | 0 <= k < |list.chunks| :: more.chunks[k].indices == list.chunks[k].indices
    requires more.chunks[|list.chunks|].indices[0] == index
    ensures Added(more) == Added(list) + [index]
  {
    forall p | 0 <= p < |Added(more)| ensures Added(more)[p] == (Added(list) + [index])[p] {
      PlaceOf(p, |list.chunks|);
    }
  }

  lemma AddedInLast(list: FreeList, more: FreeList, index: nat)
    requires Opened(list) && Opened(more) && |more.chunks| == |list.chunks| > 0 && more.fill == list.fill + 1
    requires forall k | 0 <= k < |list.chunks| - 1 :: more.chunks[k].indices == list.chunks[k].indices
    requires var last := |list.chunks| - 1; more.chunks[last].indices == list.chunks[last].indices[list.fill := index]
    ensures Added(more) == Added(list) + [index]
  {
    forall p | 0 <= p < |Added(more)| ensures Added(more)[p] == (Added(list) + [index])[p] {
      PlaceOf(p, |list.chunks| - 1);
    }
  }

  method Close(list: FreeList) returns (closed: FreeList)
    requires Opened(list)
    ensures Closed(closed) && Listed(closed) == Added(list)
  {
    var last := |list.chunks| - 1;
    var chunks := if list.chunks == [] then [] else list.chunks[last := list.chunks[last].(count := list.fill)];
    closed := list.(chunks := chunks, left := list.published);
    assert LeftChunks(closed) == chunks;
    forall p | 0 <= p < |Added(list)| ensures At(chunks, p) == At(list.chunks, p) {}
  }

  /** give: one index at the end. */
  method Give(list: FreeList, index: nat) returns (more: FreeList)
    requires Closed(list)
    ensures Closed(more) && Listed(more) == Listed(list) + [index]
  {
    var open := Open(list);
    var added := Add(open, index);
    more := Close(added);
  }

  // --- give for the indices of many pages -----------------------------------

  /** The last chunk's count is up to date, as after open and grow. */
  predicate Counted(list: FreeList) {
    Opened(list) && (list.chunks != [] ==> list.chunks[|list.chunks| - 1].count == list.fill)
  }

  lemma MoreChunksKeep(before: seq<Chunk>, after: seq<Chunk>, size: nat)
    requires Sized(before) && Sized(after) && size <= |before| * CAPACITY && |before| <= |after|
    requires forall k | 0 <= k < |before| :: after[k].indices == before[k].indices
    ensures size <= |after| * CAPACITY && Contents(after, size) == Contents(before, size)
  {
    forall p | 0 <= p < size ensures At(after, p) == At(before, p) {
      PlaceOf(p, |before|);
    }
  }

  /** grow: room for count indices, those there kept. */
  method Grow(list: FreeList, count: nat) returns (more: FreeList)
    requires Counted(list) && Full(list.chunks)
    ensures Counted(more) && Full(more.chunks)
    ensures SizeOf(more.chunks) == if count > SizeOf(list.chunks) then count else SizeOf(list.chunks)
    ensures SizeOf(list.chunks) <= |more.chunks| * CAPACITY && Contents(more.chunks, SizeOf(list.chunks)) == Added(list)
  {
    var chunks := list.chunks;
    while SizeOf(chunks) < count
      invariant Full(chunks) && |list.chunks| <= |chunks|
      invariant SizeOf(list.chunks) <= SizeOf(chunks) && (SizeOf(chunks) > count ==> chunks == list.chunks)
      invariant forall k | 0 <= k < |list.chunks| :: chunks[k].indices == list.chunks[k].indices
      decreases count - SizeOf(chunks)
    {
      if chunks == [] || chunks[|chunks| - 1].count == CAPACITY {
        chunks := chunks + [NEW_CHUNK];
      }
      var filled, last := SizeOf(chunks), |chunks| - 1;
      var wanted := chunks[last].count + (count - filled);
      chunks := chunks[last := chunks[last].(count := if wanted < CAPACITY then wanted else CAPACITY)];
    }
    more := Refilled(list.(chunks := chunks));
    MoreChunksKeep(list.chunks, chunks, SizeOf(list.chunks));
  }

  /** What is written of the list from place on. */
  predicate Written(before: seq<Chunk>, after: seq<Chunk>, place: nat, indices: seq<nat>) {
    && |after| == |before| && Sized(before) && Sized(after)
    && (forall k | 0 <= k < |before| :: after[k].count == before[k].count)
    && place + |indices| <= |before| * CAPACITY
    && (forall p | 0 <= p < |before| * CAPACITY ::
          At(after, p) == if place <= p < place + |indices| then indices[p - place] else At(before, p))
  }

  lemma WrittenThenMore(a: seq<Chunk>, b: seq<Chunk>, c: seq<Chunk>, place: nat, first: seq<nat>, more: seq<nat>)
    requires Written(a, b, place, first) && Written(b, c, place + |first|, more)
    ensures Written(a, c, place, first + more)
  {
    forall p | 0 <= p < |a| * CAPACITY
      ensures At(c, p) == if place <= p < place + |first + more| then (first + more)[p - place] else At(a, p)
    {
      assert At(c, p) == if place + |first| <= p < place + |first| + |more| then more[p - place - |first|] else At(b, p);
    }
  }

  /** The part of copy in one chunk. */
  method CopyIntoChunk(chunks: seq<Chunk>, indices: seq<nat>, place: nat) returns (after: seq<Chunk>, count: nat)
    requires Sized(chunks) && indices != [] && place + |indices| <= |chunks| * CAPACITY
    ensures 0 < count <= |indices| && Written(chunks, after, place, indices[..count])
  {
    var k, offset := place / CAPACITY, place % CAPACITY;
    PlaceOf(place, |chunks|);
    count := if |indices| < CAPACITY - offset then |indices| else CAPACITY - offset;
    var memory := chunks[k].indices[..offset] + indices[..count] + chunks[k].indices[offset + count..];
    after := chunks[k := chunks[k].(indices := memory)];
    forall p | 0 <= p < |chunks| * CAPACITY
      ensures At(after, p) == if place <= p < place + count then indices[p - place] else At(chunks, p)
    {
      PlaceOf(p, k);
    }
  }

  method Copy(list: FreeList, indices: seq<nat>, place: nat) returns (more: FreeList)
    requires Counted(list) && place + |indices| <= SizeOf(list.chunks)
    ensures Counted(more) && Written(list.chunks, more.chunks, place, indices)
  {
    var chunks, done := list.chunks, 0;
    while done < |indices|
      invariant 0 <= done <= |indices| && Written(list.chunks, chunks, place, indices[..done])
    {
      var after, count := CopyIntoChunk(chunks, indices[done..], place + done);
      WrittenThenMore(list.chunks, chunks, after, place, indices[..done], indices[done..][..count]);
      assert indices[..done] + indices[done..][..count] == indices[..done + count];
      chunks, done := after, done + count;
    }
    assert indices[..done] == indices;
    more := list.(chunks := chunks);
  }

  /** Where the indices of every page go: behind those of the pages before. */
  function PlaceOfPage(pages: seq<seq<nat>>, size: nat, i: nat): nat
    requires i <= |pages|
  {
    size + |Ranks.Flat(pages[..i])|
  }

  /** Where every page goes, and how many indices there are with them. */
  method PlacePages(pages: seq<seq<nat>>, size: nat) returns (places: seq<nat>, fill: nat)
    ensures |places| == |pages| && forall k | 0 <= k < |pages| :: places[k] == PlaceOfPage(pages, size, k)
    ensures fill == size + |Ranks.Flat(pages)|
  {
    places, fill := [], size;
    for i := 0 to |pages|
      invariant |places| == i && fill == PlaceOfPage(pages, size, i)
      invariant forall k | 0 <= k < i :: places[k] == PlaceOfPage(pages, size, k)
    {
      Ranks.FlatUpTo(pages, i);
      places := places + [fill];
      fill := fill + |pages[i]|;
    }
    assert pages[..|pages|] == pages;
  }

  lemma NothingWritten(chunks: seq<Chunk>, place: nat)
    requires Sized(chunks) && place <= |chunks| * CAPACITY
    ensures Written(chunks, chunks, place, [])
  {}

  method CopyPages(list: FreeList, pages: seq<seq<nat>>, places: seq<nat>, ghost size: nat) returns (more: FreeList)
    requires Counted(list) && SizeOf(list.chunks) == size + |Ranks.Flat(pages)| <= |list.chunks| * CAPACITY
    requires |places| == |pages| && forall k | 0 <= k < |pages| :: places[k] == PlaceOfPage(pages, size, k)
    ensures Counted(more) && Written(list.chunks, more.chunks, size, Ranks.Flat(pages))
  {
    more := list;
    NothingWritten(list.chunks, size);
    for i := 0 to |pages|
      invariant Counted(more) && SizeOf(more.chunks) == SizeOf(list.chunks)
      invariant Written(list.chunks, more.chunks, size, Ranks.Flat(pages[..i]))
    {
      Ranks.FlatUpTo(pages, i);
      Ranks.FlatPrefix(pages, i + 1);
      var before := more.chunks;
      more := Copy(more, pages[i], places[i]);
      WrittenThenMore(list.chunks, before, more.chunks, size, Ranks.Flat(pages[..i]), pages[i]);
    }
    assert pages[..|pages|] == pages;
  }

  lemma WrittenIsAdded(grown: FreeList, more: FreeList, size: nat, listed: seq<nat>, indices: seq<nat>)
    requires Counted(grown) && Full(grown.chunks) && Counted(more) && Written(grown.chunks, more.chunks, size, indices)
    requires SizeOf(grown.chunks) == size + |indices| && |listed| == size <= |grown.chunks| * CAPACITY
    requires Contents(grown.chunks, size) == listed
    ensures Added(more) == listed + indices
  {
    forall p | 0 <= p < size + |indices| ensures At(more.chunks, p) == (listed + indices)[p] {
      assert p < size ==> At(grown.chunks, p) == Contents(grown.chunks, size)[p];
    }
  }

  /** giveMany for pages of one list: grown first, then every page copied to
      its place, whichever comes first. The list is as if the indices had been
      given one by one. */
  method GivePages(list: FreeList, pages: seq<seq<nat>>) returns (more: FreeList)
    requires Closed(list)
    ensures Closed(more) && Listed(more) == Listed(list) + Ranks.Flat(pages)
  {
    var open := Open(list);
    var places, fill := PlacePages(pages, SizeOf(open.chunks));
    var grown := Grow(open, fill);
    var copied := CopyPages(grown, pages, places, SizeOf(open.chunks));
    WrittenIsAdded(grown, copied, SizeOf(open.chunks), Listed(list), Ranks.Flat(pages));
    more := Close(copied);
  }

  /** The same indices one by one. */
  method GiveOneByOne(list: FreeList, indices: seq<nat>) returns (more: FreeList)
    requires Closed(list)
    ensures Closed(more) && Listed(more) == Listed(list) + indices
  {
    more := list;
    for i := 0 to |indices|
      invariant Closed(more) && Listed(more) == Listed(list) + indices[..i]
    {
      more := Give(more, indices[i]);
      assert indices[..i + 1] == indices[..i] + [indices[i]];
    }
    assert indices[..|indices|] == indices;
  }
}
