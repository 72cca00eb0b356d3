/**
 How PageSort numbers pages (world.hpp): the threads of count go through a
 segment of the items each and give every page they meet a number, racing for
 it. One step of a thread per access to m_numbers or m_used.
 */
module PageNumbers {
  import opened Options
  import opened PageSizes

  const INDEX_LIMIT: nat := 0x1_0000_0000 - PAGE_SIZE

  /** No page: of an item past INDEX_LIMIT, and before the first item. */
  const NO_PAGE: int := -1

  datatype Found = Found(page: nat, number: nat)

  /** What the threads leave: the number of every page plus one, how many
      numbers were taken, and of every segment the items per number, the
      number of every item and the pages that got their number there. */
  datatype Tally = Tally(
    numbers: map<nat, nat>, used: nat, counts: seq<seq<nat>>, noted: seq<seq<int>>, numbered: seq<seq<Found>>)

  function PageOf(index: nat): int { if index >= INDEX_LIMIT then NO_PAGE else index / PAGE_SIZE }

  /** Of an item without a page, or of its page. */
  function NumberOf(numbers: map<nat, nat>, index: nat): int {
    var page := PageOf(index);
    if page == NO_PAGE || page !in numbers then NO_PAGE
    else
      var taken: int := numbers[page];
      taken - 1
  }

  /** How often n is in noted. */
  function Times(noted: seq<int>, n: int): nat {
    if noted == [] then 0
    else Times(noted[..|noted| - 1], n) + if noted[|noted| - 1] == n then 1 else 0
  }

  datatype Pc = Next | Load | Take | Swap

  /** page, taken: of numberOf; last: the page and number of the item before. */
  datatype Thread = Thread(
    pc: Pc, page: nat, taken: nat, last: Option<Found>, counts: seq<nat>, noted: seq<int>, numbered: seq<Found>)

  datatype State = State(segments: seq<seq<nat>>, numbers: map<nat, nat>, used: nat, threads: seq<Thread>)

  function Zeros(n: nat): (z: seq<nat>) ensures |z| == n && forall i | 0 <= i < n :: z[i] == 0 { seq(n, _ => 0) }

  /** The item of the thread counted under the number of its page. */
  function Counted(l: Thread, page: nat, number: nat): Thread {
    var counts := if number >= |l.counts| then l.counts + Zeros(number + 1 - |l.counts|) else l.counts;
    l.(pc := Next, last := Some(Found(page, number)), counts := counts[number := counts[number] + 1],
       noted := l.noted + [number])
  }

  predicate Shape(s: State) {
    && |s.threads| == |s.segments|
    && (forall p | p in s.numbers :: s.numbers[p] > 0)
  }

  /** One step of the thread that has segment t. */
  function Step(s: State, t: nat): State
    requires Shape(s) && t < |s.threads|
  {
    var l := s.threads[t];
    match l.pc
    case Next =>
      if |l.noted| >= |s.segments[t]| then s
      else
        var page := PageOf(s.segments[t][|l.noted|]);
        s.(threads := s.threads[t :=
          if page == NO_PAGE then l.(noted := l.noted + [NO_PAGE])
          else if l.last.Some? && page == l.last.value.page then Counted(l, page, l.last.value.number)
          else l.(pc := Load, page := page)])
    case Load =>
      s.(threads := s.threads[t := if l.page in s.numbers then Counted(l, l.page, s.numbers[l.page] - 1) else l.(pc := Take)])
    case Take => s.(used := s.used + 1, threads := s.threads[t := l.(pc := Swap, taken := s.used)])
    case Swap =>
      if l.page in s.numbers then s.(threads := s.threads[t := Counted(l, l.page, s.numbers[l.page] - 1)])
      else
        s.(numbers := s.numbers[l.page := l.taken + 1],
           threads := s.threads[t := Counted(l.(numbered := l.numbered + [Found(l.page, l.taken)]), l.page, l.taken)])
  }

  // --- the invariant --------------------------------------------------------

  /** A number goes to one page, or to a thread that may still give it to one. */
  ghost predicate Injective(numbers: map<nat, nat>) {
    forall p, q | p in numbers && q in numbers && numbers[p] == numbers[q] :: p == q
  }

  ghost predicate Numbers(s: State) {
    && Injective(s.numbers)
    && (forall p | p in s.numbers :: 0 < s.numbers[p] <= s.used)
    && (forall t | 0 <= t < |s.threads| && s.threads[t].pc.Swap? ::
          s.threads[t].taken < s.used && (forall p | p in s.numbers :: s.numbers[p] != s.threads[t].taken + 1))
    && (forall t, u | 0 <= t < |s.threads| && 0 <= u < |s.threads| && t != u && s.threads[t].pc.Swap? && s.threads[u].pc.Swap? ::
          s.threads[t].taken != s.threads[u].taken)
  }

  /** What a thread noted is the number of the page, and its counts say how often. */
  ghost predicate Noted(numbers: map<nat, nat>, used: nat, segment: seq<nat>, noted: seq<int>, counts: seq<nat>) {
    && |noted| <= |segment| && |counts| <= used
    && (forall k | 0 <= k < |noted| ::
          && noted[k] == NumberOf(numbers, segment[k]) < |counts|
          && (PageOf(segment[k]) != NO_PAGE ==> PageOf(segment[k]) in numbers))
    && (forall n | 0 <= n < |counts| :: counts[n] == Times(noted, n))
  }

  ghost predicate ThreadOk(s: State, t: nat)
    requires t < |s.threads| == |s.segments|
  {
    var l := s.threads[t];
    && Noted(s.numbers, s.used, s.segments[t], l.noted, l.counts)
    && (l.last.Some? ==> l.last.value.page in s.numbers && s.numbers[l.last.value.page] == l.last.value.number + 1)
    && (!l.pc.Next? ==> |l.noted| < |s.segments[t]| && l.page == PageOf(s.segments[t][|l.noted|]))
  }

  ghost predicate Hit(segments: seq<seq<nat>>, page: int) {
    exists t, k :: 0 <= t < |segments| && 0 <= k < |segments[t]| && PageOf(segments[t][k]) == page
  }

  /** Every numbered page is hit, and was numbered by one thread, once. */
  ghost predicate Numbered(numbers: map<nat, nat>, numbered: seq<seq<Found>>) {
    && (forall t, i | 0 <= t < |numbered| && 0 <= i < |numbered[t]| ::
          numbered[t][i].page in numbers && numbers[numbered[t][i].page] == numbered[t][i].number + 1)
    && (forall p | p in numbers :: exists t, i :: 0 <= t < |numbered| && 0 <= i < |numbered[t]| && numbered[t][i].page == p)
    && (forall t, i, u, j | 0 <= t < |numbered| && 0 <= i < |numbered[t]| && 0 <= u < |numbered| && 0 <= j < |numbered[u]| &&
                            numbered[t][i].page == numbered[u][j].page :: t == u && i == j)
  }

  function NumberedOf(threads: seq<Thread>): seq<seq<Found>> {
    seq(|threads|, t requires 0 <= t < |threads| => threads[t].numbered)
  }

  ghost predicate Inv(s: State) {
    && Shape(s) && Numbers(s)
    && (forall t | 0 <= t < |s.threads| :: ThreadOk(s, t))
    && Numbered(s.numbers, NumberedOf(s.threads))
    && (forall p | p in s.numbers :: Hit(s.segments, p))
  }

  // --- steps ----------------------------------------------------------------

  lemma TimesOfNone(noted: seq<int>, n: int)
    requires forall k | 0 <= k < |noted| :: noted[k] < n
    ensures Times(noted, n) == 0
  {
    if noted != [] {
      TimesOfNone(noted[..|noted| - 1], n);
    }
  }

  lemma TimesAppend(noted: seq<int>, x: int, n: int)
    ensures Times(noted + [x], n) == Times(noted, n) + if x == n then 1 else 0
  {
    assert (noted + [x])[..|noted|] == noted;
  }

  /** Numbers given since do not change what was noted. */
  lemma NotedStays(numbers: map<nat, nat>, used: nat, segment: seq<nat>, noted: seq<int>, counts: seq<nat>,
                   numbers': map<nat, nat>, used': nat)
    requires Noted(numbers, used, segment, noted, counts) && used <= used'
    requires forall p | p in numbers :: p in numbers' && numbers'[p] == numbers[p]
    ensures Noted(numbers', used', segment, noted, counts)
  {}

  lemma CountedIsNoted(numbers: map<nat, nat>, used: nat, segment: seq<nat>, l: Thread, page: nat)
    requires Noted(numbers, used, segment, l.noted, l.counts) && |l.noted| < |segment|
    requires PageOf(segment[|l.noted|]) == page && page in numbers && 0 < numbers[page] <= used
    ensures var l' := Counted(l, page, numbers[page] - 1); Noted(numbers, used, segment, l'.noted, l'.counts)
  {
    var number := numbers[page] - 1;
    var l' := Counted(l, page, number);
    forall n | 0 <= n < |l'.counts| ensures l'.counts[n] == Times(l'.noted, n) {
      TimesAppend(l.noted, number, n);
      if n >= |l.counts| {
        TimesOfNone(l.noted, n);
      }
    }
  }

  lemma NoPageIsNoted(numbers: map<nat, nat>, used: nat, segment: seq<nat>, l: Thread)
    requires Noted(numbers, used, segment, l.noted, l.counts) && |l.noted| < |segment|
    requires PageOf(segment[|l.noted|]) == NO_PAGE
    ensures Noted(numbers, used, segment, l.noted + [NO_PAGE], l.counts)
  {
    forall n | 0 <= n < |l.counts| ensures l.counts[n] == Times(l.noted + [NO_PAGE], n) {
      TimesAppend(l.noted, NO_PAGE, n);
    }
  }

  lemma ThreadStepKeeps(s: State, t: nat, l: Thread)
    requires Inv(s) && t < |s.threads| && l.numbered == s.threads[t].numbered && !l.pc.Swap?
    requires ThreadOk(s.(threads := s.threads[t := l]), t)
    ensures Inv(s.(threads := s.threads[t := l]))
  {
    var s' := s.(threads := s.threads[t := l]);
    assert NumberedOf(s'.threads) == NumberedOf(s.threads);
    forall u | 0 <= u < |s'.threads| ensures ThreadOk(s', u) {
      assert ThreadOk(s, u);
    }
  }

  lemma TakeKeeps(s: State, t: nat)
    requires Inv(s) && t < |s.threads| && s.threads[t].pc.Take?
    ensures Inv(Step(s, t))
  {
    var s' := Step(s, t);
    assert NumberedOf(s'.threads) == NumberedOf(s.threads);
    forall u | 0 <= u < |s'.threads| ensures ThreadOk(s', u) {
      assert ThreadOk(s, u);
    }
  }

  lemma SwapNumbers(s: State, t: nat)
    requires Inv(s) && t < |s.threads| && s.threads[t].pc.Swap? && s.threads[t].page !in s.numbers
    ensures var s' := Step(s, t); Numbers(s') && Shape(s')
  {}

  /** A page that had no number, given one by segment t. */
  lemma NumberedGrows(numbers: map<nat, nat>, numbered: seq<seq<Found>>, t: nat, found: Found)
    requires Numbered(numbers, numbered) && t < |numbered| && found.page !in numbers
    ensures Numbered(numbers[found.page := found.number + 1], numbered[t := numbered[t] + [found]])
  {
    var after: seq<seq<Found>> := numbered[t := numbered[t] + [found]];
    var numbers' := numbers[found.page := found.number + 1];
    forall p | p in numbers'
      ensures exists u, i :: 0 <= u < |after| && 0 <= i < |after[u]| && after[u][i].page == p
    {
      if p == found.page {
        assert after[t][|numbered[t]|].page == p;
      } else {
        var u, i :| 0 <= u < |numbered| && 0 <= i < |numbered[u]| && numbered[u][i].page == p;
        assert after[u][i].page == p;
      }
    }
  }

  lemma SwapNumbered(s: State, t: nat)
    requires Inv(s) && t < |s.threads| && s.threads[t].pc.Swap? && s.threads[t].page !in s.numbers
    ensures Numbered(Step(s, t).numbers, NumberedOf(Step(s, t).threads))
  {
    var s', l := Step(s, t), s.threads[t];
    NumberedGrows(s.numbers, NumberedOf(s.threads), t, Found(l.page, l.taken));
    assert NumberedOf(s'.threads) == NumberedOf(s.threads)[t := l.numbered + [Found(l.page, l.taken)]];
  }

  lemma SwapThreads(s: State, t: nat, u: nat)
    requires Inv(s) && t < |s.threads| && s.threads[t].pc.Swap? && s.threads[t].page !in s.numbers && u < |s.threads|
    ensures ThreadOk(Step(s, t), u)
  {
    var s', l := Step(s, t), s.threads[t];
    assert ThreadOk(s, u);
    NotedStays(s.numbers, s.used, s.segments[u], s.threads[u].noted, s.threads[u].counts, s'.numbers, s'.used);
    if u == t {
      CountedIsNoted(s'.numbers, s'.used, s.segments[t], l.(numbered := l.numbered + [Found(l.page, l.taken)]), l.page);
    }
  }

  lemma SwapKeeps(s: State, t: nat)
    requires Inv(s) && t < |s.threads| && s.threads[t].pc.Swap? && s.threads[t].page !in s.numbers
    ensures Inv(Step(s, t))
  {
    var s' := Step(s, t);
    SwapNumbers(s, t);
    SwapNumbered(s, t);
    forall u | 0 <= u < |s'.threads| ensures ThreadOk(s', u) {
      SwapThreads(s, t, u);
    }
    forall p | p in s'.numbers ensures Hit(s'.segments, p) {
      assert ThreadOk(s, t);
    }
  }

  lemma NextKeeps(s: State, t: nat)
    requires Inv(s) && t < |s.threads| && s.threads[t].pc.Next? && |s.threads[t].noted| < |s.segments[t]|
    ensures Inv(Step(s, t))
  {
    var l := s.threads[t];
    var page := PageOf(s.segments[t][|l.noted|]);
    assert ThreadOk(s, t);
    if page == NO_PAGE {
      NoPageIsNoted(s.numbers, s.used, s.segments[t], l);
    } else if l.last.Some? && page == l.last.value.page {
      CountedIsNoted(s.numbers, s.used, s.segments[t], l, page);
    }
    ThreadStepKeeps(s, t, Step(s, t).threads[t]);
  }

  lemma FoundKeeps(s: State, t: nat)
    requires Inv(s) && t < |s.threads| && (s.threads[t].pc.Load? || s.threads[t].pc.Swap?) && s.threads[t].page in s.numbers
    ensures Inv(Step(s, t))
  {
    assert ThreadOk(s, t);
    CountedIsNoted(s.numbers, s.used, s.segments[t], s.threads[t], s.threads[t].page);
    ThreadStepKeeps(s, t, Step(s, t).threads[t]);
  }

  lemma LoadKeeps(s: State, t: nat)
    requires Inv(s) && t < |s.threads| && s.threads[t].pc.Load? && s.threads[t].page !in s.numbers
    ensures Inv(Step(s, t))
  {
    assert ThreadOk(s, t);
    ThreadStepKeeps(s, t, Step(s, t).threads[t]);
  }

  lemma StepSegments(s: State, t: nat)
    requires Shape(s) && t < |s.threads|
    ensures Step(s, t).segments == s.segments
  {}

  lemma StepKeeps(s: State, t: nat)
    requires Inv(s) && t < |s.threads|
    ensures Inv(Step(s, t))
  {
    var l := s.threads[t];
    match l.pc
    case Next =>
      if |l.noted| < |s.segments[t]| {
        NextKeeps(s, t);
      }
    case Take => TakeKeeps(s, t);
    case Load =>
      if l.page in s.numbers {
        FoundKeeps(s, t);
      } else {
        LoadKeeps(s, t);
      }
    case Swap =>
      if l.page in s.numbers {
        FoundKeeps(s, t);
      } else {
        SwapKeeps(s, t);
      }
  }

  // --- runs -----------------------------------------------------------------

  predicate Initial(s: State) {
    && |s.threads| == |s.segments| && s.numbers == map[] && s.used == 0
    && (forall t | 0 <= t < |s.threads| :: s.threads[t] == Thread(Next, 0, 0, None, [], [], []))
  }

  /** The state after the turns, in any interleaving. */
  function Run(s: State, turns: seq<nat>): State {
    if turns == [] then s
    else
      var before := Run(s, turns[..|turns| - 1]);
      var t := turns[|turns| - 1];
      if Shape(before) && t < |before.threads| then Step(before, t) else before
  }

  lemma {:induction false} RunInv(s: State, turns: seq<nat>)
    requires Initial(s)
    ensures Inv(Run(s, turns)) && Run(s, turns).segments == s.segments
  {
    if turns != [] {
      RunInv(s, turns[..|turns| - 1]);
      var before := Run(s, turns[..|turns| - 1]);
      var t := turns[|turns| - 1];
      if t < |before.threads| {
        StepKeeps(before, t);
        StepSegments(before, t);
      }
    }
  }

  function TallyOf(s: State): Tally {
    Tally(s.numbers, s.used,
          seq(|s.threads|, t requires 0 <= t < |s.threads| => s.threads[t].counts),
          seq(|s.threads|, t requires 0 <= t < |s.threads| => s.threads[t].noted),
          NumberedOf(s.threads))
  }

  /** What place and the rest of count rely on. */
  ghost predicate Complete(segments: seq<seq<nat>>, y: Tally) {
    && |y.counts| == |y.noted| == |y.numbered| == |segments|
    && Injective(y.numbers)
    && (forall p | p in y.numbers :: 0 < y.numbers[p] <= y.used)
    && (forall p: nat :: p in y.numbers <==> Hit(segments, p))
    && Numbered(y.numbers, y.numbered)
    && (forall t | 0 <= t < |segments| ::
          |y.noted[t]| == |segments[t]| && Noted(y.numbers, y.used, segments[t], y.noted[t], y.counts[t]))
  }

  predicate Finished(s: State) {
    |s.threads| == |s.segments| && forall t | 0 <= t < |s.threads| :: |s.threads[t].noted| == |s.segments[t]|
  }

  /** Whoever wins the races: once all segments are counted, exactly the pages
      that are hit have a number, each one of its own, from one thread, and the
      counts and numbers of every segment are those of its items. */
  lemma EveryRaceIsComplete(s: State, turns: seq<nat>)
    requires Initial(s) && Finished(Run(s, turns))
    ensures Complete(s.segments, TallyOf(Run(s, turns)))
  {
    RunInv(s, turns);
    var r := Run(s, turns);
    var y := TallyOf(r);
    forall t | 0 <= t < |r.segments|
      ensures |y.noted[t]| == |r.segments[t]| && Noted(y.numbers, y.used, r.segments[t], y.noted[t], y.counts[t])
    {
      assert ThreadOk(r, t) && |r.threads[t].noted| == |r.segments[t]|;
    }
    forall p: nat | Hit(r.segments, p) ensures p in r.numbers {
      var t, k :| 0 <= t < |r.segments| && 0 <= k < |r.segments[t]| && PageOf(r.segments[t][k]) == p;
      assert ThreadOk(r, t) && k < |r.threads[t].noted|;
    }
  }
}
