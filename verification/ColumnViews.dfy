/**
 What the loop over the entities finds in columns whose threads are done: the
 pages that every run of a column leaves behind are views, and the loop is for
 exactly the slots that were made and not erased since.
 */
module ColumnViews {
  import opened Options
  import opened PageSizes
  import opened ColumnPage
  import opened ColumnEffects
  import opened ColumnInvariant
  import opened ColumnRuns
  import opened EachInPages

  ghost predicate SummaryFits(pg: Page) { forall w | w in pg.summary :: w < PAGE_WORDS }

  lemma MakeFits(config: Config, pg: Page, l: Thread, c: Choice)
    requires l.slot < PAGE_SIZE && SummaryFits(pg)
    ensures SummaryFits(MakeStep(config, pg, l, c).0)
  {}

  lemma EmptyFits(config: Config, pg: Page, l: Thread)
    requires (l.pc.RebuildWord? ==> l.word < PAGE_WORDS) && SummaryFits(pg)
    ensures SummaryFits(EmptyStep(config, pg, l).0)
  {}

  lemma StartKeepsSummary(config: Config, pg: Page, l: Thread, c: Choice)
    ensures EnterStep(config, pg, l).0.summary == pg.summary && StartStep(config, pg, l, c).0.summary == pg.summary
  {}

  lemma EraseKeepsSummary(pg: Page, l: Thread)
    ensures EraseStep(pg, l).0.summary == pg.summary && ParkStep(pg, l).0.summary == pg.summary
  {}

  lemma VacateKeepsSummary(pg: Page, l: Thread)
    ensures VacateStep(pg, l).0.summary == pg.summary
  {}

  lemma HeaderStepFits(config: Config, pg: Page, l: Thread, c: Choice)
    requires LocalOk(config, l) && SummaryFits(pg)
    ensures SummaryFits(HeaderStep(config, pg, l, c).0)
  {
    if InMake(l.pc) {
      MakeFits(config, pg, l, c);
    } else if InEmpty(l.pc) {
      EmptyFits(config, pg, l);
    } else {
      StartKeepsSummary(config, pg, l, c);
      EraseKeepsSummary(pg, l);
      VacateKeepsSummary(pg, l);
    }
  }

  lemma StepFits(s: State, t: nat, c: Choice)
    requires Inv(s) && t < |s.threads| && forall p | 0 <= p < |s.pages| :: SummaryFits(s.pages[p])
    ensures forall p | 0 <= p < |Step(s, t, c).pages| :: SummaryFits(Step(s, t, c).pages[p])
  {
    var l := s.threads[t];
    HeaderStepFits(s.config, s.pages[l.page], l, c);
  }

  lemma {:induction false} RunFits(s: State, moves: seq<Move>, p: nat)
    requires Initial(s) && p < |Run(s, moves).pages|
    ensures SummaryFits(Run(s, moves).pages[p])
  {
    if moves != [] {
      var before, m := Run(s, moves[..|moves| - 1]), moves[|moves| - 1];
      RunInv(s, moves[..|moves| - 1]);
      forall q | 0 <= q < |before.pages| ensures SummaryFits(before.pages[q]) {
        RunFits(s, moves[..|moves| - 1], q);
      }
      if m.thread < |before.threads| {
        StepFits(before, m.thread, m.choice);
      }
    }
  }

  function ViewOf(pg: Page): View { View(pg.mask, pg.summary, pg.count) }

  /** Once no operation is under way, a page is as the loop needs it. */
  lemma AtRestIsView(s: State, moves: seq<Move>, p: nat)
    requires Initial(s) && AllIdle(Run(s, moves)) && p < |Run(s, moves).pages|
    ensures IsView(ViewOf(Run(s, moves).pages[p]))
  {
    AtRestNothingIsLeft(s, moves, p);
    RunInv(s, moves);
    RunFits(s, moves, p);
  }

  /** A column: all that its threads did. */
  datatype History = History(start: State, moves: seq<Move>) {
    function Now(): State { Run(start, moves) }

    predicate AtRest() { Initial(start) && AllIdle(Now()) }

    /** The page as a loop sees it, none where the column has no such page. */
    function Seen(p: nat): Option<View> { if p < |Now().pages| then Some(ViewOf(Now().pages[p])) else None }

    /** Made and not erased since. */
    predicate IsThere(p: nat, slot: nat) { p < |Now().pages| && Has(Now().log, p, slot) }
  }

  function SeenAll(columns: seq<History>, p: nat): seq<Option<View>> {
    seq(|columns|, k requires 0 <= k < |columns| => columns[k].Seen(p))
  }

  predicate AllAtRest(columns: seq<History>) { forall k | 0 <= k < |columns| :: columns[k].AtRest() }

  lemma SeenAreViews(columns: seq<History>, p: nat)
    requires AllAtRest(columns)
    ensures AreViews(SeenAll(columns, p))
  {
    forall k | 0 <= k < |columns| && SeenAll(columns, p)[k].Some? ensures IsView(SeenAll(columns, p)[k].value) {
      AtRestIsView(columns[k].start, columns[k].moves, p);
    }
  }

  lemma SeenIsThere(columns: seq<History>, p: nat, slot: nat)
    requires AllAtRest(columns)
    ensures forall k | 0 <= k < |columns| ::
              SeenAll(columns, p)[k].Some? && slot in SeenAll(columns, p)[k].value.mask <==> columns[k].IsThere(p, slot)
  {
    forall k | 0 <= k < |columns|
      ensures SeenAll(columns, p)[k].Some? && slot in SeenAll(columns, p)[k].value.mask <==> columns[k].IsThere(p, slot)
    {
      MakesAndErasesAlternate(columns[k].start, columns[k].moves);
    }
  }

  /** A loop at a page, next to nothing, after whatever the threads of all
      columns did: it may go by counts and summaries, and it is for exactly the
      slots of which every component to go through was made and not erased
      since, none of the excluded ones was, and all of those with changes were
      in a word with changes. */
  lemma LoopSeesWhatWasMade(gets: seq<History>, without: seq<History>, changes: seq<History>, changed: set<nat>,
                            p: nat, slot: nat)
    requires gets != [] && AllAtRest(gets) && AllAtRest(without) && AllAtRest(changes)
    requires forall w | w in changed :: w < PAGE_WORDS
    ensures AreColumns(Columns(SeenAll(gets, p), SeenAll(without, p), SeenAll(changes, p), changed))
    ensures slot in Wanted(Columns(SeenAll(gets, p), SeenAll(without, p), SeenAll(changes, p), changed)) <==>
            && (forall k | 0 <= k < |gets| :: gets[k].IsThere(p, slot))
            && (forall k | 0 <= k < |without| :: !without[k].IsThere(p, slot))
            && (forall k | 0 <= k < |changes| :: changes[k].IsThere(p, slot))
            && slot / WORD_BITS in changed
  {
    SeenAreViews(gets, p);
    SeenAreViews(without, p);
    SeenAreViews(changes, p);
    SeenIsThere(gets, p, slot);
    SeenIsThere(without, p, slot);
    SeenIsThere(changes, p, slot);
  }
}
