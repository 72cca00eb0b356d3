/** What comes of a trim that nobody meets: no page without components is kept for later. */
module ColumnTrim {
  import opened Counting
  import opened ColumnPage
  import opened PageSizes
  import opened ColumnEffects
  import opened ColumnInvariant
  import opened ColumnRuns
  import opened ColumnSolo

  /** More than the steps that are left of the page in hand. */
  function VacateRank(l: Thread): nat {
    match l.pc
    case UnlockVacated => 1 case GiveBack => 2 case Keep => 2 case ReadBits => 3 + Left(l.word)
    case ReadCount => 100 case ClearStarted => 101 case LockVacate => 102 case ClearParked => 103
    case _ => 0
  }

  function TrimRank(l: Thread, places: nat): nat { (if l.place < places then (places - l.place) * 200 else 0) + VacateRank(l) }

  ghost predicate IsTrimming(s0: State, s: State, t: nat) {
    && t < |s.threads| == |s0.threads| && OthersIdle(s, t) && |s.pages| == |s0.pages| && |s.spares| == |s0.spares|
    && (forall q | 0 <= q < |s.pages| :: s.pages[q].mask == s0.pages[q].mask) && s.log == s0.log
    && var l := s.threads[t];
       && (if l.pc.Idle? then (forall i | 0 <= i < |s.spares| :: s.spares[i] == NO_PAGE)
           else l.trim && (l.pc.TrimPlace? || l.pc.ClearParked? || InVacate(l.pc)) &&
                forall i | 0 <= i < |s.spares| && i < l.place :: s.spares[i] == NO_PAGE)
  }

  lemma TrimVacates(pg: Page, l: Thread)
    requires InVacate(l.pc) && l.trim && !(l.pc.LockVacate? && pg.busy)
    ensures var (pg', l') := VacateStep(pg, l);
      && (InVacate(l'.pc) || l'.pc.TrimPlace?) && l'.trim && l'.place == l.place && pg'.mask == pg.mask
      && VacateRank(l') < VacateRank(l) && Happened(pg, l) == []
  {}

  lemma PageGetsOn(s0: State, s: State, t: nat)
    requires Shape(s) && IsTrimming(s0, s, t) && s.threads[t].page < |s.pages|
    requires s.threads[t].pc.ClearParked? || (InVacate(s.threads[t].pc) && !(s.threads[t].pc.LockVacate? && s.pages[s.threads[t].page].busy))
    ensures IsTrimming(s0, Step(s, t, Go), t)
    ensures TrimRank(Step(s, t, Go).threads[t], |s.spares|) < TrimRank(s.threads[t], |s.spares|)
  {
    var l := s.threads[t];
    if InVacate(l.pc) {
      TrimVacates(s.pages[l.page], l);
    }
  }

  lemma PlaceGetsOn(s0: State, s: State, t: nat)
    requires Shape(s) && IsTrimming(s0, s, t) && s.threads[t].pc.TrimPlace?
    ensures IsTrimming(s0, Step(s, t, Go), t)
    ensures Step(s, t, Go).threads[t].pc.Idle? ||
            TrimRank(Step(s, t, Go).threads[t], |s.spares|) < TrimRank(s.threads[t], |s.spares|)
  {}

  lemma NextOfTrim(s0: State, s: State, t: nat) returns (s': State)
    requires Inv(s) && IsTrimming(s0, s, t) && !s.threads[t].pc.Idle?
    ensures Inv(s') && IsTrimming(s0, s', t) && forall n: nat :: Alone(s, t, n + 1) == Alone(s', t, n)
    ensures s'.threads[t].pc.Idle? || TrimRank(s'.threads[t], |s0.spares|) < TrimRank(s.threads[t], |s0.spares|)
  {
    NothingIsHeld(s, t);
    StepKeeps(s, t, Go);
    if s.threads[t].pc.TrimPlace? {
      PlaceGetsOn(s0, s, t);
    } else {
      PageGetsOn(s0, s, t);
    }
    s' := Step(s, t, Go);
  }

  ghost predicate IsTrimmed(s0: State, e: State, t: nat) { IsTrimming(s0, e, t) && e.threads[t].pc.Idle? }

  lemma {:induction false} TrimGoes(s0: State, s: State, t: nat) returns (n: nat)
    requires Inv(s) && IsTrimming(s0, s, t)
    ensures IsTrimmed(s0, Alone(s, t, n), t)
    decreases if s.threads[t].pc.Idle? then 0 else 1, TrimRank(s.threads[t], |s0.spares|)
  {
    if s.threads[t].pc.Idle? {
      n := 0;
      assert Alone(s, t, 0) == s;
    } else {
      var s' := NextOfTrim(s0, s, t);
      n := TrimGoes(s0, s', t);
      assert Alone(s, t, n + 1) == Alone(s', t, n);
      n := n + 1;
    }
  }

  lemma TrimBegins(s0: State, t: nat) returns (s: State)
    requires Inv(s0) && AllIdle(s0) && t < |s0.threads|
    ensures s == Step(s0, t, Trim) && Inv(s) && IsTrimming(s0, s, t)
  {
    assert LocalOk(s0.config, s0.threads[t]);
    StepKeeps(s0, t, Trim);
    s := Step(s0, t, Trim);
  }

  lemma NoneIsParked(spares: seq<int>, p: nat)
    requires forall i | 0 <= i < |spares| :: spares[i] == NO_PAGE
    ensures Sum(PlaceWeight(p), spares) == 0
  {
    SumZero(PlaceWeight(p), spares);
  }

  /** trim, begun when nobody is inside and met by nobody, ends: no page is a
      spare any more, memory is only where there are components or where a
      vacate kept it for a making bit, and the components are as they were. */
  lemma TrimEnds(s: State, moves: seq<Move>, t: nat) returns (n: nat)
    requires Initial(s) && AllIdle(Run(s, moves)) && t < |Run(s, moves).threads|
    ensures var r, e := Run(s, moves), Run(s, moves + [Move(t, Trim)] + Moves(t, n));
      && AllIdle(e) && |e.pages| == |r.pages| && e.log == r.log
      && (forall i | 0 <= i < |e.spares| :: e.spares[i] == NO_PAGE)
      && (forall p | 0 <= p < |e.pages| ::
            && e.pages[p].mask == r.pages[p].mask && !e.pages[p].parked
            && (e.pages[p].memory ==> e.pages[p].mask != {} || e.pages[p].kept))
  {
    var r, begun := Run(s, moves), moves + [Move(t, Trim)];
    RunInv(s, moves);
    assert begun[..|begun| - 1] == moves;
    var b := TrimBegins(r, t);
    n := TrimGoes(r, b, t);
    RunAlone(s, begun, t, n);
    var e := Run(s, begun + Moves(t, n));
    forall p | 0 <= p < |e.pages| ensures !e.pages[p].parked && (e.pages[p].memory ==> e.pages[p].mask != {} || e.pages[p].kept) {
      NoneIsParked(e.spares, p);
      AtRestMemoryIsSpare(s, begun + Moves(t, n), p);
    }
  }
}
