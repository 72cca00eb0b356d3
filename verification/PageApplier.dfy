/**
 How the changes of one page are done by the one thread that has it
 (CommandApplier and PageAdds of scheduler.hpp, with the operations of a page
 that nobody else uses of column.hpp): the erases that follow one another are
 gathered per column, and the adds are counted in the page ahead.
 */
module PageApplier {
  import opened Options
  import opened PageNumbers
  import opened PageSizes
  import opened Changes

  /** A page in a column: a slot is the index of its entity. Of the count,
      |mask| are there, the others counted ahead. */
  datatype ColumnPage<V> = ColumnPage(mask: set<nat>, values: map<nat, V>, summary: set<nat>, count: nat)

  /** The words that have one of the slots. */
  function WordsOf(slots: set<nat>): set<nat> { set slot | slot in slots :: slot / WORD_BITS }

  /** The slots of some words. */
  function InWords(slots: set<nat>, words: set<nat>): set<nat> { set slot | slot in slots && slot / WORD_BITS in words }

  predicate Exact<V>(p: ColumnPage<V>) {
    p.values.Keys == p.mask && p.summary == WordsOf(p.mask) && p.count >= |p.mask|
  }

  const UNUSED_SUMMARY: set<nat> := {}

  function Unused<V>(): ColumnPage<V> { ColumnPage({}, map[], UNUSED_SUMMARY, 0) }

  /** forsakePage and emptied, up to the spares. */
  function Forsake<V>(p: ColumnPage<V>, count: nat): ColumnPage<V>
    requires count <= p.count
  {
    if p.count == count then p.(count := 0, summary := {}) else p.(count := p.count - count)
  }

  lemma ForsakeIsExact<V>(p: ColumnPage<V>, count: nat)
    requires Exact(p) && count + |p.mask| <= p.count
    ensures Exact(Forsake(p, count)) && Forsake(p, count).mask == p.mask && Forsake(p, count).values == p.values
  {}

  lemma WordsApart(mask: set<nat>, gone: set<nat>, word: nat)
    requires gone <= InWords(mask, {word})
    ensures WordsOf(mask - gone) == if gone == InWords(mask, {word}) then WordsOf(mask) - {word} else WordsOf(mask)
  {
    if gone != InWords(mask, {word}) {
      var kept :| kept in InWords(mask, {word}) && kept !in gone;
      assert kept in mask - gone;
      assert word in WordsOf(mask - gone);
    }
    forall w | w in WordsOf(mask) && w != word ensures w in WordsOf(mask - gone) {
      var slot :| slot in mask && slot / WORD_BITS == w;
      assert slot in mask - gone;
    }
  }

  lemma GoneGrows(mask: set<nat>, kill: set<nat>, done: set<nat>, word: nat)
    requires word !in done
    ensures InWords(mask - InWords(kill, done), {word}) * kill == InWords(mask * kill, {word})
    ensures InWords(kill, done + {word}) == InWords(kill, done) + InWords(kill, {word})
    ensures |InWords(mask * kill, done + {word})| == |InWords(mask * kill, done)| + |InWords(mask * kill, {word})|
  {
    assert InWords(mask * kill, done + {word}) == InWords(mask * kill, done) + InWords(mask * kill, {word});
  }

  /** What eraseAlone keeps while it goes through the words. */
  ghost predicate Erased<V>(p: ColumnPage<V>, kill: set<nat>, done: set<nat>, mask: set<nat>, values: map<nat, V>, summary: set<nat>,
                      removed: nat) {
    && mask == p.mask - InWords(kill, done) && values == p.values - InWords(kill, done)
    && summary == WordsOf(mask) && removed == |InWords(p.mask * kill, done)|
  }

  lemma EraseWord<V>(p: ColumnPage<V>, kill: set<nat>, done: set<nat>, mask: set<nat>, values: map<nat, V>,
                     summary: set<nat>, removed: nat, word: nat)
    requires Exact(p) && Erased(p, kill, done, mask, values, summary, removed) && word !in done
    ensures var bits := InWords(mask, {word}); var gone := bits * kill;
      if gone == {} then Erased(p, kill, done + {word}, mask, values, summary, removed)
      else Erased(p, kill, done + {word}, mask - gone, values - gone, if gone == bits then summary - {word} else summary,
                  removed + |gone|)
  {
    var gone := InWords(mask, {word}) * kill;
    GoneGrows(p.mask, kill, done, word);
    WordsApart(mask, gone, word);
    assert p.mask - InWords(kill, done + {word}) == mask - gone;
    assert p.values - InWords(kill, done + {word}) == values - gone;
    if gone == {} {
      assert mask - gone == mask && values - gone == values;
    }
  }

  /** The words of eraseAlone that may have a bit in the column. */
  method EraseWords<V>(p: ColumnPage<V>, kill: set<nat>)
    returns (mask: set<nat>, values: map<nat, V>, summary: set<nat>, removed: nat)
    requires Exact(p)
    ensures Erased(p, kill, WordsOf(kill) * p.summary, mask, values, summary, removed)
  {
    mask, values, summary, removed := p.mask, p.values, p.summary, 0;
    var touched := WordsOf(kill) * p.summary;
    ghost var all, done: set<nat> := touched, {};
    NoneErased(p, kill);
    while touched != {}
      invariant touched == all - done && done <= all
      invariant Erased(p, kill, done, mask, values, summary, removed)
      decreases |touched|
    {
      var word :| word in touched;
      EraseWord(p, kill, done, mask, values, summary, removed, word);
      var bits := InWords(mask, {word});
      var gone := bits * kill;
      if gone != {} {
        mask, values, removed := mask - gone, values - gone, removed + |gone|;
        summary := if gone == bits then summary - {word} else summary;
      }
      TouchedNext(touched, all, done, word);
      touched, done := touched - {word}, done + {word};
    }
    assert done == all;
  }

  lemma TouchedNext(touched: set<nat>, all: set<nat>, done: set<nat>, word: nat)
    requires touched == all - done && done <= all && word in touched
    ensures touched - {word} == all - (done + {word}) && done + {word} <= all && |touched - {word}| < |touched|
  {}

  lemma NoneErased<V>(p: ColumnPage<V>, kill: set<nat>)
    requires Exact(p)
    ensures Erased(p, kill, {}, p.mask, p.values, p.summary, 0)
  {
    assert InWords(kill, {}) == {} && InWords(p.mask * kill, {}) == {};
  }

  /** eraseAlone for one page: the slots go that the column has. */
  method EraseAlone<V>(p: ColumnPage<V>, kill: set<nat>) returns (r: ColumnPage<V>)
    requires Exact(p)
    ensures Exact(r) && r.mask == p.mask - kill && r.values == p.values - kill
    ensures r.count == p.count - |p.mask * kill|
  {
    var mask, values, summary, removed := EraseWords(p, kill);
    ErasedAll(p, kill, WordsOf(kill) * p.summary, mask, values, summary, removed);
    r := if removed == 0 then p else Forsake(ColumnPage(mask, values, summary, p.count), removed);
  }

  lemma ErasedAll<V>(p: ColumnPage<V>, kill: set<nat>, done: set<nat>, mask: set<nat>, values: map<nat, V>, summary: set<nat>,
                     removed: nat)
    requires Exact(p) && Erased(p, kill, done, mask, values, summary, removed) && done == WordsOf(kill) * p.summary
    ensures removed == |p.mask * kill| <= |p.mask|
    ensures var r := if removed == 0 then p else Forsake(ColumnPage(mask, values, summary, p.count), removed);
      Exact(r) && r.mask == p.mask - kill && r.values == p.values - kill && r.count == p.count - removed
  {
    DoneIsAll(p.mask, kill, done);
    assert p.values - InWords(kill, done) == p.values - kill;
    if removed == 0 {
      NothingKilled(p.mask, p.values, kill);
    }
  }

  lemma NothingKilled<V>(mask: set<nat>, values: map<nat, V>, kill: set<nat>)
    requires values.Keys == mask && |mask * kill| == 0
    ensures mask - kill == mask && values - kill == values
  {
    assert mask * kill == {};
    forall i | i in mask ensures i !in kill {
      assert i in kill ==> i in mask * kill;
    }
  }

  lemma DoneIsAll(mask: set<nat>, kill: set<nat>, done: set<nat>)
    requires done == WordsOf(kill) * WordsOf(mask)
    ensures InWords(mask * kill, done) == mask * kill
    ensures mask - InWords(kill, done) == mask - kill
    ensures |mask - kill| == |mask| - |mask * kill|
  {
    SubsetSize(mask * kill, mask);
    forall slot | slot in mask * kill ensures slot / WORD_BITS in done {}
    assert mask == (mask - kill) + mask * kill;
  }

  lemma SubsetSize(a: set<nat>, b: set<nat>)
    requires a <= b
    ensures |a| <= |b|
  {
    assert b == a + (b - a);
  }

  // --- the state of the thread ----------------------------------------------

  /** Of a column: the components counted ahead, and those added of them. */
  datatype Counted = Counted(counted: nat, added: nat) {
    function Left(): int { counted - added }
  }

  function KilledIn(kills: map<nat, set<nat>>, column: nat): set<nat> { if column in kills then kills[column] else {} }

  function LeftOf(counted: map<nat, Counted>, column: nat): int {
    if column in counted then counted[column].Left() else 0
  }

  /** The count of a page is what its mask has, and what is counted ahead. */
  predicate Counts<V>(columns: map<nat, ColumnPage<V>>, counted: map<nat, Counted>) {
    && (forall c | c in columns :: Exact(columns[c]) && columns[c].count == |columns[c].mask| + LeftOf(counted, c))
    && (forall c | c in counted :: c in columns && counted[c].added <= counted[c].counted)
  }

  predicate Has<V>(columns: map<nat, ColumnPage<V>>, kills: map<nat, set<nat>>, at: (nat, nat)) {
    at.0 in columns && at.1 in columns[at.0].mask && at.1 !in KilledIn(kills, at.0)
  }

  /** The components are those of the columns but the gathered erases. */
  ghost predicate Shows<V>(columns: map<nat, ColumnPage<V>>, kills: map<nat, set<nat>>, cells: map<(nat, nat), V>) {
    && (forall c | c in columns :: columns[c].values.Keys == columns[c].mask)
    && (forall at: (nat, nat) :: at in cells <==> Has(columns, kills, at))
    && (forall at | at in cells :: cells[at] == columns[at.0].values[at.1])
  }

  lemma KillShows<V>(columns: map<nat, ColumnPage<V>>, kills: map<nat, set<nat>>, cells: map<(nat, nat), V>, column: nat,
                     index: nat)
    requires Shows(columns, kills, cells)
    ensures (column, index) in cells <==> Has(columns, kills, (column, index))
    ensures Shows(columns, kills[column := KilledIn(kills, column) + {index}], cells - {(column, index)})
  {
    var kills', cells' := kills[column := KilledIn(kills, column) + {index}], cells - {(column, index)};
    forall at: (nat, nat) ensures at in cells' <==> Has(columns, kills', at) {
      assert at in cells <==> Has(columns, kills, at);
    }
  }

  lemma FlushShows<V>(columns: map<nat, ColumnPage<V>>, kills: map<nat, set<nat>>, cells: map<(nat, nat), V>, column: nat,
                      r: ColumnPage<V>)
    requires Shows(columns, kills, cells) && column in kills && column in columns
    requires r.mask == columns[column].mask - kills[column] && r.values == columns[column].values - kills[column]
    ensures Shows(columns[column := r], kills[column := {}], cells)
  {
    forall at: (nat, nat) ensures at in cells <==> Has(columns[column := r], kills[column := {}], at) {
      assert at in cells <==> Has(columns, kills, at);
    }
  }

  lemma FlushCounts<V>(columns: map<nat, ColumnPage<V>>, counted: map<nat, Counted>, kill: set<nat>, column: nat,
                       r: ColumnPage<V>)
    requires Counts(columns, counted) && column in columns && Exact(r)
    requires r.mask == columns[column].mask - kill && r.count == columns[column].count - |columns[column].mask * kill|
    ensures Counts(columns[column := r], counted)
  {
    var mask := columns[column].mask;
    assert mask == (mask - kill) + mask * kill;
  }

  lemma NoColumnShows<V>(columns: map<nat, ColumnPage<V>>, kills: map<nat, set<nat>>, cells: map<(nat, nat), V>, column: nat)
    requires Shows(columns, kills, cells) && column !in columns
    ensures Shows(columns, kills[column := {}], cells)
  {
    forall at: (nat, nat) ensures at in cells <==> Has(columns, kills[column := {}], at) {
      assert at in cells <==> Has(columns, kills, at);
    }
  }

  /** occupyPage: counted ahead in a page that the column may not have used yet. */
  function Occupied<V>(columns: map<nat, ColumnPage<V>>, column: nat, step: nat): map<nat, ColumnPage<V>> {
    var p := if column in columns then columns[column] else Unused<V>();
    columns[column := p.(count := p.count + step)]
  }

  function CountedMore(counted: map<nat, Counted>, column: nat, step: nat): map<nat, Counted> {
    var k := if column in counted then counted[column] else Counted(0, 0);
    counted[column := k.(counted := k.counted + step)]
  }

  lemma OccupyShows<V>(columns: map<nat, ColumnPage<V>>, kills: map<nat, set<nat>>, cells: map<(nat, nat), V>, column: nat,
                       step: nat)
    requires Shows(columns, kills, cells)
    ensures Shows(Occupied(columns, column, step), kills, cells)
  {
    forall at: (nat, nat) ensures at in cells <==> Has(Occupied(columns, column, step), kills, at) {
      assert at in cells <==> Has(columns, kills, at);
    }
  }

  lemma OccupyCounts<V>(columns: map<nat, ColumnPage<V>>, counted: map<nat, Counted>, column: nat, step: nat)
    requires Counts(columns, counted)
    ensures Counts(Occupied(columns, column, step), CountedMore(counted, column, step))
  {}

  /** emplaceCounted: the component, its bit of the mask and its word in the summary. */
  function Made<V>(p: ColumnPage<V>, index: nat, value: V): ColumnPage<V> {
    p.(mask := p.mask + {index}, values := p.values[index := value], summary := p.summary + {index / WORD_BITS})
  }

  lemma AddShows<V>(columns: map<nat, ColumnPage<V>>, kills: map<nat, set<nat>>, cells: map<(nat, nat), V>, column: nat,
                    index: nat, value: V, p: ColumnPage<V>)
    requires Shows(columns, kills, cells) && KilledIn(kills, column) == {} && column in columns
    requires p.mask == columns[column].mask + {index} && p.values == columns[column].values[index := value]
    ensures Shows(columns[column := p], kills, cells[(column, index) := value])
  {
    var columns', cells' := columns[column := p], cells[(column, index) := value];
    forall at: (nat, nat) ensures at in cells' <==> Has(columns', kills, at) {
      assert at in cells <==> Has(columns, kills, at);
    }
  }

  lemma MadeIsExact<V>(p: ColumnPage<V>, index: nat, value: V)
    requires Exact(p) && index !in p.mask && p.count > |p.mask|
    ensures Exact(Made(p, index, value)) && |Made(p, index, value).mask| == |p.mask| + 1
  {}

  lemma AddCounts<V>(columns: map<nat, ColumnPage<V>>, counted: map<nat, Counted>, column: nat, index: nat, value: V)
    requires Counts(columns, counted) && column in columns && column in counted && index !in columns[column].mask
    requires counted[column].added < counted[column].counted
    ensures Counts(columns[column := Made(columns[column], index, value)],
                   counted[column := counted[column].(added := counted[column].added + 1)])
  {
    MadeIsExact(columns[column], index, value);
  }

  lemma AddKeeps<V>(columns: map<nat, ColumnPage<V>>, kills: map<nat, set<nat>>, counted: map<nat, Counted>,
                    cells: map<(nat, nat), V>, column: nat, index: nat, value: V)
    requires Shows(columns, kills, cells) && Counts(columns, counted) && KilledIn(kills, column) == {}
    requires column in columns && column in counted && index !in columns[column].mask
    requires counted[column].added < counted[column].counted
    ensures Shows(columns[column := Made(columns[column], index, value)], kills, cells[(column, index) := value])
    ensures Counts(columns[column := Made(columns[column], index, value)],
                   counted[column := counted[column].(added := counted[column].added + 1)])
  {
    AddShows(columns, kills, cells, column, index, value, Made(columns[column], index, value));
    AddCounts(columns, counted, column, index, value);
  }

  lemma CloseKeeps<V>(columns: map<nat, ColumnPage<V>>, kills: map<nat, set<nat>>, counted: map<nat, Counted>,
                      cells: map<(nat, nat), V>, column: nat)
    requires Shows(columns, kills, cells) && Counts(columns, counted) && column in counted
    ensures 0 <= counted[column].Left() <= columns[column].count
    ensures var columns' := columns[column := Forsake(columns[column], counted[column].Left())];
      Shows(columns', kills, cells) && Counts(columns', counted - {column})
  {
    ForsakeIsExact(columns[column], counted[column].Left());
    SameMasksShow(columns, kills, cells, column, Forsake(columns[column], counted[column].Left()));
  }

  /** The count does not show. */
  lemma SameMasksShow<V>(columns: map<nat, ColumnPage<V>>, kills: map<nat, set<nat>>, cells: map<(nat, nat), V>, column: nat,
                         p: ColumnPage<V>)
    requires Shows(columns, kills, cells) && column in columns
    requires p.mask == columns[column].mask && p.values == columns[column].values
    ensures Shows(columns[column := p], kills, cells)
  {
    forall at: (nat, nat) ensures at in cells <==> Has(columns[column := p], kills, at) {
      assert at in cells <==> Has(columns, kills, at);
    }
  }

  lemma CellIs<V>(columns: map<nat, ColumnPage<V>>, kills: map<nat, set<nat>>, cells: map<(nat, nat), V>, column: nat,
                  index: nat)
    requires Shows(columns, kills, cells) && KilledIn(kills, column) == {}
    ensures (column, index) in cells <==> column in columns && index in columns[column].mask
    ensures (column, index) in cells ==> cells[(column, index)] == columns[column].values[index]
  {
    assert (column, index) in cells <==> Has(columns, kills, (column, index));
  }

  lemma ModifyIs<V>(hooks: Hooks, o: Outcome<V>, o': Outcome<V>, c: Change<V>, change: V -> V)
    requires c.valid && c.kind == Modify(change) && o'.removed == o.removed && o'.added == o.added
    requires var at := (c.column, c.index); o'.cells == if at in o.cells then o.cells[at := change(o.cells[at])] else o.cells
    ensures o' == ApplyOne(hooks, o, c)
  {}

  lemma KillIs<V>(hooks: Hooks, o: Outcome<V>, o': Outcome<V>, c: Change<V>)
    requires c.valid && c.kind.Erase? && o'.added == o.added
    requires var at := (c.column, c.index);
      o'.removed == o.removed + if at in o.cells && c.column in hooks.onRemove then [Removed(c.column, c.index, o.cells[at])] else []
    requires o'.cells == o.cells - {(c.column, c.index)}
    ensures o' == ApplyOne(hooks, o, c)
  {
    if (c.column, c.index) !in o.cells {
      assert o.cells - {(c.column, c.index)} == o.cells;
    }
  }

  lemma EmplaceIs<V>(hooks: Hooks, o: Outcome<V>, o': Outcome<V>, c: Change<V>, value: V, replace: bool)
    requires c.valid && c.kind == if replace then Replace(value) else Emplace(value)
    requires o'.removed == o.removed
    requires var at := (c.column, c.index);
             if at in o.cells then o'.cells == (if replace then o.cells[at := value] else o.cells) && o'.added == o.added
             else o'.cells == o.cells[at := value] && o'.added == o.added + if c.column in hooks.onAdd then [at] else []
    ensures o' == ApplyOne(hooks, o, c)
  {}

  class PageApplier<V(!new)> {
    const hooks: Hooks
    const step: nat
    var columns: map<nat, ColumnPage<V>>
    var kills: map<nat, set<nat>>
    var counted: map<nat, Counted>
    var removed: seq<Removed<V>>
    var added: seq<(nat, nat)>
    ghost var cells: map<(nat, nat), V>

    ghost function View(): Outcome<V>
      reads this
    {
      Outcome(cells, removed, added)
    }

    ghost predicate Valid()
      reads this
    {
      step > 0 && Counts(columns, counted) && Shows(columns, kills, cells)
    }

    /** No erase is gathered. */
    ghost predicate Flushed()
      reads this
    {
      forall c | c in kills :: kills[c] == {}
    }

    /** For so many changes of the page, whose columns are exact. */
    constructor (hooks: Hooks, changes: nat, columns: map<nat, ColumnPage<V>>, ghost cells: map<(nat, nat), V>)
      requires changes > 0 && Counts(columns, map[]) && Shows(columns, map[], cells)
      ensures Valid() && Flushed() && View() == Outcome(cells, [], []) && this.hooks == hooks && this.columns == columns
    {
      this.hooks := hooks;
      step := if changes < PAGE_SIZE then changes else PAGE_SIZE;
      this.columns, kills, counted, removed, added := columns, map[], map[], [], [];
      this.cells := cells;
    }

    /** kill: an erase gathered; a component with onRemove hooks is moved out first. */
    method Kill(c: Change<V>)
      requires Valid() && c.valid && c.kind.Erase?
      modifies this`kills, this`removed, this`cells
      ensures Valid() && View() == ApplyOne(hooks, old(View()), c)
    {
      ghost var o := View();
      Stash(c);
      KillShows(columns, kills, cells, c.column, c.index);
      kills := kills[c.column := KilledIn(kills, c.column) + {c.index}];
      cells := cells - {(c.column, c.index)};
      KillIs(hooks, o, View(), c);
    }

    /** The component is moved out, if it is there and its column has hooks. */
    method Stash(c: Change<V>)
      requires Valid() && c.valid && c.kind.Erase?
      modifies this`removed
      ensures var at := (c.column, c.index);
        removed == old(removed) +
                   if at in cells && c.column in hooks.onRemove then [Removed(c.column, c.index, cells[at])] else []
    {
      KillShows(columns, kills, cells, c.column, c.index);
      if c.column in hooks.onRemove && c.index !in KilledIn(kills, c.column) {
        if c.column in columns && c.index in columns[c.column].mask {
          removed := removed + [Removed(c.column, c.index, columns[c.column].values[c.index])];
        }
      }
    }

    /** flush: the gathered erases are done, which changes no component. */
    method Flush()
      requires Valid()
      modifies this`columns, this`kills
      ensures Valid() && Flushed()
    {
      var left := kills.Keys;
      while left != {}
        invariant Valid() && left <= kills.Keys
        invariant forall c | c in kills && c !in left :: kills[c] == {}
        decreases |left|
      {
        var column :| column in left;
        left := left - {column};
        if kills[column] != {} {
          FlushPage(column);
        }
      }
    }

    method FlushPage(column: nat)
      requires Valid() && column in kills
      modifies this`columns, this`kills
      ensures Valid() && kills == old(kills)[column := {}]
    {
      if column in columns {
        var r := EraseAlone(columns[column], kills[column]);
        FlushShows(columns, kills, cells, column, r);
        FlushCounts(columns, counted, kills[column], column, r);
        columns := columns[column := r];
      } else {
        NoColumnShows(columns, kills, cells, column);
      }
      kills := kills[column := {}];
    }

    /** reserve of PageAdds, before an add. */
    method Reserve(column: nat)
      requires Valid()
      modifies this`columns, this`counted
      ensures Valid() && column in counted && counted[column].added < counted[column].counted
    {
      if column !in counted || counted[column].added == counted[column].counted {
        OccupyShows(columns, kills, cells, column, step);
        OccupyCounts(columns, counted, column, step);
        columns := Occupied(columns, column, step);
        counted := CountedMore(counted, column, step);
      }
    }

    /** emplaceCounted, and what finishEmplace makes of it. */
    method EmplaceCounted(column: nat, index: nat, value: V)
      requires Valid() && Flushed() && column in counted && counted[column].added < counted[column].counted
      modifies this`columns, this`counted, this`added, this`cells
      ensures Valid()
      ensures if (column, index) in old(cells) then cells == old(cells) && added == old(added)
              else cells == old(cells)[(column, index) := value] &&
                   added == old(added) + if column in hooks.onAdd then [(column, index)] else []
    {
      CellIs(columns, kills, cells, column, index);
      if index !in columns[column].mask {
        Make(column, index, value);
        added := added + if column in hooks.onAdd then [(column, index)] else [];
      }
    }

    method Make(column: nat, index: nat, value: V)
      requires Valid() && Flushed() && column in counted && counted[column].added < counted[column].counted
      requires index !in columns[column].mask
      modifies this`columns, this`counted, this`cells
      ensures Valid() && cells == old(cells)[(column, index) := value]
    {
      AddKeeps(columns, kills, counted, cells, column, index, value);
      columns := columns[column := Made(columns[column], index, value)];
      counted := counted[column := counted[column].(added := counted[column].added + 1)];
      cells := cells[(column, index) := value];
    }

    /** The value of a component there is, replaced or changed. */
    method Assign(column: nat, index: nat, value: V)
      requires Valid() && Flushed() && column in columns && index in columns[column].mask
      modifies this`columns, this`cells
      ensures Valid() && cells == old(cells)[(column, index) := value] && (column, index) in old(cells)
    {
      CellIs(columns, kills, cells, column, index);
      var p := columns[column].(values := columns[column].values[index := value]);
      assert columns[column].mask + {index} == columns[column].mask;
      AddShows(columns, kills, cells, column, index, value, p);
      columns := columns[column := p];
      cells := cells[(column, index) := value];
    }

    /** finishEmplace: of a component to add, or with replace to put in its place. */
    method FinishEmplace(c: Change<V>, value: V, replace: bool)
      requires Valid() && Flushed() && c.valid && c.kind == if replace then Replace(value) else Emplace(value)
      modifies this`columns, this`counted, this`added, this`cells
      ensures Valid() && View() == ApplyOne(hooks, old(View()), c)
    {
      ghost var o := View();
      CellIs(columns, kills, cells, c.column, c.index);
      if replace && c.column in columns && c.index in columns[c.column].mask {
        Assign(c.column, c.index, value);
      } else {
        Reserve(c.column);
        EmplaceCounted(c.column, c.index, value);
      }
      EmplaceIs(hooks, o, View(), c, value, replace);
    }

    method FinishModify(c: Change<V>, change: V -> V)
      requires Valid() && Flushed() && c.valid && c.kind == Modify(change)
      modifies this`columns, this`cells
      ensures Valid() && View() == ApplyOne(hooks, old(View()), c)
    {
      ghost var o := View();
      CellIs(columns, kills, cells, c.column, c.index);
      if c.column in columns && c.index in columns[c.column].mask {
        Assign(c.column, c.index, change(columns[c.column].values[c.index]));
      }
      ModifyIs(hooks, o, View(), c, change);
    }

    /** What finish of the change does; nothing for an entity that is gone. */
    method Finish(c: Change<V>)
      requires Valid() && Flushed() && !c.kind.Erase?
      modifies this`columns, this`counted, this`added, this`cells
      ensures Valid() && View() == ApplyOne(hooks, old(View()), c)
    {
      if !c.valid {
        return;
      }
      match c.kind
      case Emplace(value) => FinishEmplace(c, value, false);
      case Replace(value) => FinishEmplace(c, value, true);
      case Modify(change) => FinishModify(c, change);
    }

    /** applyChange: the erases before it are done, unless it is one as well. */
    method ApplyChange(c: Change<V>)
      requires Valid()
      modifies this
      ensures Valid() && View() == ApplyOne(hooks, old(View()), c)
    {
      if c.kind.Erase? {
        if c.valid {
          Kill(c);
        }
        return;
      }
      Flush();
      Finish(c);
    }

    /** applyPage and applyInOrder: the changes one at a time, in their order,
        and the count of every column is its components. */
    method ApplyPage(changes: seq<Change<V>>)
      requires Valid() && counted == map[]
      modifies this
      ensures Valid() && Flushed() && View() == Apply(hooks, old(View()), changes)
      ensures forall c | c in columns :: columns[c].count == |columns[c].mask|
    {
      for k := 0 to |changes|
        invariant Valid() && View() == Apply(hooks, old(View()), changes[..k])
      {
        assert changes[..k + 1][..k] == changes[..k];
        ApplyChange(changes[k]);
      }
      assert changes[..|changes|] == changes;
      Flush();
      Close();
    }

    /** The end of PageAdds: what was counted and not added goes back. */
    method Close()
      requires Valid()
      modifies this`columns, this`counted
      ensures Valid() && counted == map[] && forall c | c in columns :: columns[c].count == |columns[c].mask|
    {
      while counted != map[]
        invariant Valid()
        decreases |counted|
      {
        var column :| column in counted;
        CloseOne(column);
      }
    }

    method CloseOne(column: nat)
      requires Valid() && column in counted
      modifies this`columns, this`counted
      ensures Valid() && counted == old(counted) - {column} && |counted| < |old(counted)|
    {
      CloseKeeps(columns, kills, counted, cells, column);
      columns := columns[column := Forsake(columns[column], counted[column].Left())];
      counted := counted - {column};
    }
  }
}
