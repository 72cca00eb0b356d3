/**
 A loop over the entities with some components, without others, and with changes
 of others (World::eachInPages). The bits of the words are kept as sets of slots.
 */
module EachInPages {
  import opened Options
  import opened PageSizes

  /** What a column has of a page. */
  datatype View = View(mask: set<nat>, summary: set<nat>, count: nat)

  /** At rest: the count is the components, and every word with one is in the
      summary, maybe with others. */
  predicate IsView(v: View) {
    && (forall s | s in v.mask :: s < PAGE_SIZE && s / WORD_BITS in v.summary)
    && (forall w | w in v.summary :: w < PAGE_WORDS)
    && v.count == |v.mask|
  }

  /** The columns of a loop at one page: those of the components to go through,
      of the excluded ones, and of those with Changed; without a page where the
      column has none. changed: the words with changes. */
  datatype Columns = Columns(gets: seq<Option<View>>, without: seq<Option<View>>, changes: seq<Option<View>>, changed: set<nat>)

  predicate AreColumns(c: Columns) {
    && |c.gets| > 0 && AreViews(c.gets) && AreViews(c.without) && AreViews(c.changes)
    && forall w | w in c.changed :: w < PAGE_WORDS
  }

  predicate AreViews(views: seq<Option<View>>) { forall k | 0 <= k < |views| && views[k].Some? :: IsView(views[k].value) }

  predicate InAll(views: seq<Option<View>>, slot: nat) {
    forall k | 0 <= k < |views| :: views[k].Some? && slot in views[k].value.mask
  }

  predicate InNone(views: seq<Option<View>>, slot: nat) {
    forall k | 0 <= k < |views| && views[k].Some? :: slot !in views[k].value.mask
  }

  /** The entities the loop is for. */
  predicate Wants(c: Columns, slot: nat) {
    InAll(c.gets, slot) && InNone(c.without, slot) && InAll(c.changes, slot) && slot / WORD_BITS in c.changed
  }

  function Wanted(c: Columns): set<nat>
    requires AreColumns(c)
  {
    if c.gets[0].None? then {} else set s | s in c.gets[0].value.mask && Wants(c, s)
  }

  /** Each of the slots once, ascending. */
  predicate Lists(list: seq<nat>, slots: set<nat>) {
    && (forall i, j | 0 <= i < j < |list| :: list[i] < list[j])
    && (forall s | s in list :: s in slots) && (forall s | s in slots :: s in list)
  }

  // --- one word -------------------------------------------------------------

  function Bits(view: View, word: nat): set<nat> { set s | s in view.mask && s / WORD_BITS == word }

  function WordFrom(first: nat, count: nat): (slots: set<nat>)
    ensures forall s: nat :: s in slots <==> first <= s < first + count
  {
    if count == 0 then {} else WordFrom(first, count - 1) + {first + count - 1}
  }

  /** countr_zero. */
  method Lowest(bits: set<nat>) returns (lowest: nat)
    requires bits != {}
    ensures lowest in bits && forall b | b in bits :: lowest <= b
  {
    ghost var some :| some in bits;
    lowest := 0;
    while lowest !in bits
      invariant forall b | b in bits :: lowest <= b
      decreases some - lowest
    {
      lowest := lowest + 1;
    }
  }

  lemma OneMore(list: seq<nat>, slots: set<nat>, slot: nat)
    requires Lists(list, slots) && forall s | s in slots :: s < slot
    ensures Lists(list + [slot], slots + {slot})
  {
    forall i | 0 <= i < |list| ensures list[i] < slot {
      assert list[i] in list;
    }
  }

  method EachInMask(mask: set<nat>, first: nat) returns (called: seq<nat>)
    requires forall s | s in mask :: first <= s < first + WORD_BITS
    ensures Lists(called, mask)
  {
    called := [];
    if mask == WordFrom(first, WORD_BITS) {
      for slot := first to first + WORD_BITS
        invariant Lists(called, WordFrom(first, slot - first))
      {
        OneMore(called, WordFrom(first, slot - first), slot);
        called := called + [slot];
      }
      return;
    }
    var rest := mask;
    while rest != {}
      invariant rest <= mask && Lists(called, mask - rest)
      invariant forall s, r | s in mask - rest && r in rest :: s < r
    {
      var slot := Lowest(rest);
      OneMore(called, mask - rest, slot);
      assert mask - rest + {slot} == mask - (rest - {slot});
      called := called + [slot];
      rest := rest - {slot};
    }
    assert mask - rest == mask;
  }

  // --- one page -------------------------------------------------------------

  /** What the pages with the components leave of a word. */
  method Narrowed(mask: set<nat>, views: seq<Option<View>>, word: nat, take: bool) returns (rest: set<nat>)
    requires forall s | s in mask :: s / WORD_BITS == word
    ensures forall s :: s in rest <==> s in mask && forall k | 0 <= k < |views| && views[k].Some? :: (s in views[k].value.mask) == take
  {
    rest := mask;
    for k := 0 to |views|
      invariant forall s :: s in rest <==> s in mask && forall l | 0 <= l < k && views[l].Some? :: (s in views[l].value.mask) == take
    {
      if views[k].Some? {
        var bits := Bits(views[k].value, word);
        rest := if take then rest * bits else rest - bits;
      }
    }
  }

  /** The slots of a word. */
  function InWord(slots: set<nat>, word: nat): set<nat> { set s | s in slots && s / WORD_BITS == word }

  predicate AllThere(views: seq<Option<View>>) { forall k | 0 <= k < |views| :: views[k].Some? }

  /** maskOf, of a word with changes. */
  method MaskOf(c: Columns, word: nat) returns (mask: set<nat>)
    requires AreColumns(c) && AllThere(c.gets) && AllThere(c.changes) && word in c.changed
    ensures mask == InWord(Wanted(c), word)
  {
    mask := Narrowed(Bits(c.gets[0].value, word), c.gets, word, true);
    mask := Narrowed(mask, c.without, word, false);
    mask := Narrowed(mask, c.changes, word, true);
  }

  /** The words that may have a slot. */
  method WordsOf(c: Columns) returns (words: set<nat>)
    requires AreColumns(c) && AllThere(c.gets) && AllThere(c.changes)
    ensures words <= c.changed && forall s | s in Wanted(c) :: s / WORD_BITS in words
  {
    words := c.changed;
    for k := 0 to |c.gets|
      invariant words <= c.changed && forall s | s in Wanted(c) :: s / WORD_BITS in words
    {
      words := words * c.gets[k].value.summary;
    }
    for k := 0 to |c.changes|
      invariant words <= c.changed && forall s | s in Wanted(c) :: s / WORD_BITS in words
    {
      words := words * c.changes[k].value.summary;
    }
  }

  /** The slots of the words that were gone through, before those to come. */
  ghost predicate UpTo(called: seq<nat>, all: set<nat>, words: set<nat>) {
    && Lists(called, set s | s in all && s / WORD_BITS !in words)
    && forall s, w | s in called && w in words :: s / WORD_BITS < w
  }

  lemma NextWord(called: seq<nat>, all: set<nat>, words: set<nat>, word: nat, part: seq<nat>)
    requires UpTo(called, all, words) && word in words && (forall w | w in words :: word <= w)
    requires Lists(part, InWord(all, word))
    ensures UpTo(called + part, all, words - {word})
  {
    forall s | s in part ensures s in all && s / WORD_BITS == word {}
    forall i, j | 0 <= i < j < |called + part| ensures (called + part)[i] < (called + part)[j] {
      if i < |called| <= j {
        assert called[i] in called && part[j - |called|] in part;
        assert called[i] / WORD_BITS < word && part[j - |called|] / WORD_BITS == word;
      }
    }
  }

  method EachInWords(c: Columns, all: set<nat>) returns (called: seq<nat>)
    requires AreColumns(c) && AllThere(c.gets) && AllThere(c.changes)
    requires all <= c.changed && forall s | s in Wanted(c) :: s / WORD_BITS in all
    ensures Lists(called, Wanted(c))
  {
    called := [];
    var words := all;
    while words != {}
      invariant words <= all && UpTo(called, Wanted(c), words)
    {
      var word := Lowest(words);
      var mask := MaskOf(c, word);
      var part := EachInMask(mask, word * WORD_BITS);
      NextWord(called, Wanted(c), words, word, part);
      called := called + part;
      words := words - {word};
    }
    assert (set s | s in Wanted(c) && s / WORD_BITS !in words) == Wanted(c);
  }

  predicate AllFull(views: seq<Option<View>>) { forall k | 0 <= k < |views| :: views[k].Some? && views[k].value.count == PAGE_SIZE }

  lemma {:induction false} SizeOfRange(n: nat)
    ensures |WordFrom(0, n)| == n
  {
    if n > 0 {
      SizeOfRange(n - 1);
    }
  }

  lemma {:induction false} Whole(slots: set<nat>, n: nat)
    requires (forall s | s in slots :: s < n) && |slots| == n
    ensures slots == WordFrom(0, n)
  {
    SizeOfRange(n);
    var all := WordFrom(0, n);
    assert slots <= all;
    if all - slots != {} {
      var s :| s in all - slots;
      Smaller(slots, all, s);
    }
  }

  lemma Smaller(few: set<nat>, all: set<nat>, s: nat)
    requires few <= all && s in all - few
    ensures |few| < |all|
  {
    assert |all - few| > 0 && all == few + (all - few);
  }

  lemma FullHasAll(views: seq<Option<View>>, slot: nat)
    requires AreViews(views) && AllFull(views) && slot < PAGE_SIZE
    ensures InAll(views, slot)
  {
    forall k | 0 <= k < |views| ensures slot in views[k].value.mask {
      Whole(views[k].value.mask, PAGE_SIZE);
    }
  }

  /** Every slot of a page where all that the loop takes is full, and nothing
      is left out. */
  lemma FullIsWanted(c: Columns)
    requires AreColumns(c) && AllFull(c.gets) && AllFull(c.changes) && c.changed == WordFrom(0, PAGE_WORDS)
    requires forall k | 0 <= k < |c.without| :: c.without[k].None?
    ensures Wanted(c) == WordFrom(0, PAGE_SIZE)
  {
    forall s: nat | s < PAGE_SIZE ensures s in Wanted(c) {
      FullHasAll(c.gets, s);
      FullHasAll(c.changes, s);
    }
  }

  method EachInFullPage() returns (called: seq<nat>)
    ensures Lists(called, WordFrom(0, PAGE_SIZE))
  {
    called := [];
    for slot := 0 to PAGE_SIZE
      invariant Lists(called, WordFrom(0, slot))
    {
      OneMore(called, WordFrom(0, slot), slot);
      called := called + [slot];
    }
  }

  /** One page: all slots of a full one at once, or else word by word. */
  method EachInPage(c: Columns) returns (called: seq<nat>)
    requires AreColumns(c)
    ensures Lists(called, Wanted(c))
  {
    if !AllThere(c.gets) || !AllThere(c.changes) || c.changed == {} {
      NothingIsWanted(c);
      called := [];
    } else if c.changed == WordFrom(0, PAGE_WORDS) && AllFull(c.gets) && AllFull(c.changes)
              && forall k | 0 <= k < |c.without| :: c.without[k].None? {
      FullIsWanted(c);
      called := EachInFullPage();
    } else {
      var words := WordsOf(c);
      called := EachInWords(c, words);
    }
  }

  lemma NothingIsWanted(c: Columns)
    requires AreColumns(c) && (!AllThere(c.gets) || !AllThere(c.changes) || c.changed == {})
    ensures Wanted(c) == {}
  {}

  // --- the pages of a loop --------------------------------------------------

  /** Calls come page by page, ascending in each: none comes twice. */
  predicate InOrder(calls: seq<(nat, nat)>) { forall i, j | 0 <= i < j < |calls| :: Before(calls[i], calls[j]) }

  /** A call is for the slot of a page, which has its place in the order of the pages. */
  predicate Before(a: (nat, nat), b: (nat, nat)) { a.0 < b.0 || (a.0 == b.0 && a.1 < b.1) }

  function CallsAt(place: nat, slots: seq<nat>): (calls: seq<(nat, nat)>)
    ensures |calls| == |slots| && forall k | 0 <= k < |slots| :: calls[k] == (place, slots[k])
  {
    seq(|slots|, k requires 0 <= k < |slots| => (place, slots[k]))
  }

  lemma CallsOfPage(place: nat, slots: seq<nat>, c: Columns)
    requires AreColumns(c) && Lists(slots, Wanted(c))
    ensures InOrder(CallsAt(place, slots))
    ensures forall p: nat, slot: nat {:trigger (p, slot) in CallsAt(place, slots)} ::
              (p, slot) in CallsAt(place, slots) <==> p == place && Wants(c, slot)
  {
    var calls := CallsAt(place, slots);
    forall slot: nat | Wants(c, slot) ensures (place, slot) in calls {
      assert slot in Wanted(c);
      var k :| 0 <= k < |slots| && slots[k] == slot;
      assert calls[k] == (place, slot);
    }
    forall k | 0 <= k < |calls| ensures Wants(c, calls[k].1) {
      assert slots[k] in slots && slots[k] in Wanted(c);
    }
  }

  /** The function is called for exactly the entities the loop is for, once. */
  method EachInPages(order: seq<nat>, columns: nat -> Columns, first: nat, last: nat) returns (calls: seq<(nat, nat)>)
    requires first <= last <= |order| && forall k | first <= k < last :: AreColumns(columns(order[k]))
    ensures InOrder(calls)
    ensures forall p: nat, slot: nat {:trigger (p, slot) in calls} ::
              (p, slot) in calls <==> first <= p < last && Wants(columns(order[p]), slot)
  {
    calls := [];
    for place := first to last
      invariant InOrder(calls) && forall k | 0 <= k < |calls| :: calls[k].0 < place
      invariant forall p: nat, slot: nat {:trigger (p, slot) in calls} ::
                  (p, slot) in calls <==> first <= p < place && Wants(columns(order[p]), slot)
    {
      var slots := EachInPage(columns(order[place]));
      CallsOfPage(place, slots, columns(order[place]));
      var more := CallsAt(place, slots);
      assert forall p: nat, slot: nat :: (p, slot) in calls + more <==> (p, slot) in calls || (p, slot) in more;
      calls := calls + more;
    }
  }
}
