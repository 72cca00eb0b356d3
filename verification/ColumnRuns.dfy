/** What holds in every run of a column, from all pages empty on. */
module ColumnRuns {
  import opened Counting
  import opened ColumnPage
  import opened PageSizes
  import opened ColumnEffects
  import opened ColumnInvariant

  datatype Move = Move(thread: nat, choice: Choice)

  const EMPTY_PAGE: Page := Page({}, {}, {}, 0, false, false, false, false, {}, false)

  predicate Initial(s: State) {
    && Shape(s)
    && (forall p | 0 <= p < |s.pages| :: s.pages[p] == EMPTY_PAGE)
    && (forall i | 0 <= i < |s.spares| :: s.spares[i] == NO_PAGE)
    && (forall t | 0 <= t < |s.threads| ::
          s.threads[t].pc.Idle? && s.threads[t].bit.Free? && !s.threads[t].trim && s.threads[t].slot < PAGE_SIZE)
    && s.log == []
  }

  /** The state after the moves, in any interleaving; a move of no thread does nothing. */
  function Run(s: State, moves: seq<Move>): State {
    if moves == [] then s
    else
      var before := Run(s, moves[..|moves| - 1]);
      var m := moves[|moves| - 1];
      if Shape(before) && m.thread < |before.threads| then Step(before, m.thread, m.choice) else before
  }

  lemma InitialThreads(s: State)
    requires Initial(s)
    ensures forall t | 0 <= t < |s.threads| :: LocalOk(s.config, s.threads[t]) && s.threads[t].bit.Free?
  {}

  lemma InitialInv(s: State)
    requires Initial(s)
    ensures Inv(s)
  {
    InitialThreads(s);
    forall p | 0 <= p < |s.pages|
      ensures Sum(CountWeight(p), s.threads) == 0
      ensures Sum(CarryWeight(p), s.threads) == 0 && Sum(PlaceWeight(p), s.spares) == 0
    {
      SumZero(CountWeight(p), s.threads);
      SumZero(CarryWeight(p), s.threads);
      SumZero(PlaceWeight(p), s.spares);
    }
  }

  lemma {:induction false} RunInv(s: State, moves: seq<Move>)
    requires Initial(s)
    ensures Inv(Run(s, moves))
  {
    if moves == [] {
      InitialInv(s);
    } else {
      RunInv(s, moves[..|moves| - 1]);
      var before := Run(s, moves[..|moves| - 1]);
      var m := moves[|moves| - 1];
      if m.thread < |before.threads| {
        StepKeeps(before, m.thread, m.choice);
      }
    }
  }

  /** Without a thread between the two, the constructed values are the mask. */
  lemma NoneBetween(s: State, p: nat)
    requires Lives(s) && p < |s.pages|
    requires forall t | 0 <= t < |s.threads| && s.threads[t].page == p :: !Between(s.threads[t].pc)
    ensures s.pages[p].live == s.pages[p].mask
  {}

  /** The thread is about to use the value of its slot: to construct it, to
      put it into the mask, to change it or to end it. */
  predicate AtValue(pc: Pc) { pc.Construct? || pc.SetMask? || pc.Using? || pc.EndValue? }

  /** In every interleaving: a thread at a value has memory under it, has the
      slot for itself, constructs only where nothing is constructed and ends
      only what is; one that modifies finds it constructed where erase takes
      the bit. And a vacate gives memory back only where nothing is
      constructed and no thread is at a value. */
  lemma MemoryStaysUnderUsers(s: State, moves: seq<Move>, t: nat)
    requires Initial(s) && t < |Run(s, moves).threads|
    ensures Run(s, moves).threads[t].page < |Run(s, moves).pages|
    ensures var r := Run(s, moves); var l := r.threads[t]; var pg := r.pages[l.page];
      && (AtValue(l.pc) ==>
            && pg.memory
            && (forall u | 0 <= u < |r.threads| && u != t && AtValue(r.threads[u].pc) ::
                  r.threads[u].page != l.page || r.threads[u].slot != l.slot))
      && (l.pc.Construct? ==> l.slot !in pg.live)
      && (l.pc.EndValue? ==> l.slot in pg.live)
      && (l.pc.Using? && r.config.eraseTakesBit ==> l.slot in pg.live)
      && (l.pc.GiveBack? ==>
            && pg.mask == {} && pg.live == {}
            && (forall u | 0 <= u < |r.threads| && r.threads[u].page == l.page :: !AtValue(r.threads[u].pc)))
  {
    RunInv(s, moves);
    var r := Run(s, moves);
    var l := r.threads[t];
    assert LocalOk(r.config, l);
    if AtValue(l.pc) {
      forall u | 0 <= u < |r.threads| && u != t && AtValue(r.threads[u].pc)
        ensures r.threads[u].page != l.page || r.threads[u].slot != l.slot
      {
        assert LocalOk(r.config, r.threads[u]);
      }
    }
    if l.pc.GiveBack? {
      assert Clearing(l.pc);
      NoneBetween(r, l.page);
      forall u | 0 <= u < |r.threads| && r.threads[u].page == l.page ensures !AtValue(r.threads[u].pc) {
        assert LocalOk(r.config, r.threads[u]);
      }
    }
  }

  /** On every slot, makes and erases that succeed take turns, a make first,
      and the mask shows whose turn was the last; the count of a page is the
      components in its mask and the threads between count and mask. */
  lemma MakesAndErasesAlternate(s: State, moves: seq<Move>)
    requires Initial(s)
    ensures var r := Run(s, moves);
      && Alternates(r.log)
      && (forall p, slot | 0 <= p < |r.pages| :: slot in r.pages[p].mask <==> Has(r.log, p, slot))
      && (forall p | 0 <= p < |r.pages| :: r.pages[p].count == |r.pages[p].mask| + Sum(CountWeight(p), r.threads))
  {
    RunInv(s, moves);
  }

  predicate AllIdle(s: State) {
    forall t | 0 <= t < |s.threads| :: s.threads[t].pc.Idle?
  }

  lemma IdleThreads(s: State)
    requires Inv(s) && AllIdle(s)
    ensures forall t | 0 <= t < |s.threads| ::
              s.threads[t].bit.Free? && !Counted(s.threads[t].pc) && !Between(s.threads[t].pc) &&
              !Carries(s.threads[t].pc) && !Retires(s.threads[t].pc) && !InBusy(s.threads[t].pc)
  {
    forall t | 0 <= t < |s.threads| ensures s.threads[t].bit.Free? {
      assert LocalOk(s.config, s.threads[t]);
    }
  }

  /** Once no operation is under way, no bit is left behind, the count is the
      components there are, and every word with one is in the summary. */
  lemma AtRestNothingIsLeft(s: State, moves: seq<Move>, p: nat)
    requires Initial(s) && AllIdle(Run(s, moves)) && p < |Run(s, moves).pages|
    ensures var pg := Run(s, moves).pages[p];
      && pg.making == {} && !pg.busy && pg.live == pg.mask && pg.count == |pg.mask|
      && (forall slot | slot in pg.mask :: slot / WORD_BITS in pg.summary)
  {
    RunInv(s, moves);
    var r := Run(s, moves);
    IdleThreads(r);
    SumZero(CountWeight(p), r.threads);
    NoneBetween(r, p);
  }

  /** And a page has memory exactly where started says: for every component,
      and without one only as a spare or because a vacate kept it for a making
      bit. */
  lemma AtRestMemoryIsSpare(s: State, moves: seq<Move>, p: nat)
    requires Initial(s) && AllIdle(Run(s, moves)) && p < |Run(s, moves).pages|
    ensures var r := Run(s, moves); var pg := r.pages[p];
      && pg.started == pg.memory
      && (pg.mask != {} ==> pg.memory)
      && (pg.memory && pg.mask == {} ==> pg.kept || pg.parked)
      && Sum(PlaceWeight(p), r.spares) == Bool(pg.parked)
  {
    AtRestNothingIsLeft(s, moves, p);
    RunInv(s, moves);
    var r := Run(s, moves);
    IdleThreads(r);
    SumZero(CarryWeight(p), r.threads);
  }

  /** Spares: a page is at most once among them or in the hands of one thread,
      and exactly while parked is set. */
  lemma SparesAreUnique(s: State, moves: seq<Move>, i: nat, j: nat)
    requires Initial(s)
    requires var r := Run(s, moves); i < |r.spares| && r.spares[i] != NO_PAGE
    ensures var r := Run(s, moves);
      && 0 <= r.spares[i] < |r.pages| && r.pages[r.spares[i]].parked
      && (j < |r.spares| && j != i ==> r.spares[j] != r.spares[i])
      && (j < |r.threads| && Carries(r.threads[j].pc) ==> r.threads[j].page != r.spares[i])
  {
    RunInv(s, moves);
    var r := Run(s, moves);
    var p := r.spares[i];
    SumAtLeast(PlaceWeight(p), r.spares, i);
    if j < |r.spares| && j != i && r.spares[j] == p {
      SumAtLeastTwo(PlaceWeight(p), r.spares, if i < j then i else j, if i < j then j else i);
    }
    if j < |r.threads| && Carries(r.threads[j].pc) && r.threads[j].page == p {
      SumAtLeast(CarryWeight(p), r.threads, j);
    }
  }
}
