/**
 What the changes of components come to, said of one component at a time: which
 value it has in the end, and that the hooks get exactly what went and came.
 */
module ChangeLaws {
  import opened Options
  import opened Changes
  import opened Counting

  type At = (nat, nat)

  function ValueAt<V>(cells: map<At, V>, at: At): Option<V> { if at in cells then Some(cells[at]) else None }

  // --- one component --------------------------------------------------------

  /** What a change makes of the component it is for. */
  function Becomes<V>(value: Option<V>, kind: Kind<V>): Option<V> {
    match kind
    case Erase => None
    case Emplace(made) => if value.Some? then value else Some(made)
    case Replace(made) => Some(made)
    case Modify(change) => if value.Some? then Some(change(value.value)) else None
  }

  /** The values a component has had, after each change. */
  function Values<V>(value: Option<V>, changes: seq<Change<V>>, at: At): (values: seq<Option<V>>)
    ensures |values| == |changes| + 1
  {
    if changes == [] then [value]
    else
      var before, c := Values(value, changes[..|changes| - 1], at), changes[|changes| - 1];
      var last := before[|before| - 1];
      before + [if c.valid && (c.column, c.index) == at then Becomes(last, c.kind) else last]
  }

  lemma {:induction false} ValuesBefore<V>(value: Option<V>, changes: seq<Change<V>>, at: At, k: nat)
    requires k <= |changes|
    ensures Values(value, changes[..k], at) == Values(value, changes, at)[..k + 1]
  {
    if k == |changes| {
      assert changes[..k] == changes;
    } else {
      ValuesBefore(value, changes[..|changes| - 1], at, k);
      assert changes[..|changes| - 1][..k] == changes[..k];
    }
  }

  /** In the end a component has the value that its own changes, in order, made
      of the one it had, whatever the others did. */
  lemma {:induction false} ComponentIsItsChanges<V>(hooks: Hooks, o: Outcome<V>, changes: seq<Change<V>>, at: At)
    ensures ValueAt(Apply(hooks, o, changes).cells, at) == Values(ValueAt(o.cells, at), changes, at)[|changes|]
  {
    if changes != [] {
      ComponentIsItsChanges(hooks, o, changes[..|changes| - 1], at);
    }
  }

  // --- what went and what came ----------------------------------------------

  /** The values the component had when a change took it away. */
  function Gone<V>(values: seq<Option<V>>): seq<V>
    requires |values| > 0
  {
    if |values| == 1 then []
    else
      var init := values[..|values| - 1];
      Gone(init) + if init[|init| - 1].Some? && values[|values| - 1].None? then [init[|init| - 1].value] else []
  }

  /** How often a change made it where there was none. */
  function Came<V>(values: seq<Option<V>>): nat
    requires |values| > 0
  {
    if |values| == 1 then 0
    else
      var init := values[..|values| - 1];
      Came(init) + Bool(init[|init| - 1].None? && values[|values| - 1].Some?)
  }

  /** What was there and what came is what went and what is there. */
  lemma {:induction false} GoneAndThere<V>(values: seq<Option<V>>)
    requires |values| > 0
    ensures |Gone(values)| + Bool(values[|values| - 1].Some?) == Came(values) + Bool(values[0].Some?)
  {
    if |values| > 1 {
      GoneAndThere(values[..|values| - 1]);
    }
  }

  /** What the removals say of one component, in order. */
  function RemovedAt<V>(removed: seq<Removed<V>>, at: At): seq<V> {
    if removed == [] then []
    else
      var last := removed[|removed| - 1];
      RemovedAt(removed[..|removed| - 1], at) + if (last.column, last.index) == at then [last.value] else []
  }

  function AddedAt(added: seq<At>, at: At): nat {
    if added == [] then 0 else AddedAt(added[..|added| - 1], at) + Bool(added[|added| - 1] == at)
  }

  lemma RemovedMore<V>(removed: seq<Removed<V>>, more: seq<Removed<V>>, at: At)
    requires |more| <= 1
    ensures RemovedAt(removed + more, at) ==
            RemovedAt(removed, at) + if |more| == 1 && (more[0].column, more[0].index) == at then [more[0].value] else []
  {
    if more == [] {
      assert removed + more == removed;
    } else {
      assert (removed + more)[..|removed|] == removed && (removed + more)[|removed|] == more[0];
    }
  }

  lemma AddedMore(added: seq<At>, more: seq<At>, at: At)
    requires |more| <= 1
    ensures AddedAt(added + more, at) == AddedAt(added, at) + Bool(|more| == 1 && more[0] == at)
  {
    if more == [] {
      assert added + more == added;
    } else {
      assert (added + more)[..|added|] == added && (added + more)[|added|] == more[0];
    }
  }

  lemma OneRemoves<V>(hooks: Hooks, o: Outcome<V>, c: Change<V>, at: At)
    ensures var v, v' := ValueAt(o.cells, at), ValueAt(ApplyOne(hooks, o, c).cells, at);
      RemovedAt(ApplyOne(hooks, o, c).removed, at) ==
      RemovedAt(o.removed, at) + if at.0 in hooks.onRemove && v.Some? && v'.None? then [v.value] else []
  {
    RemovedMore(o.removed, RemovedBy(hooks, o, c), at);
  }

  lemma OneAdds<V>(hooks: Hooks, o: Outcome<V>, c: Change<V>, at: At)
    ensures var v, v' := ValueAt(o.cells, at), ValueAt(ApplyOne(hooks, o, c).cells, at);
      AddedAt(ApplyOne(hooks, o, c).added, at) == AddedAt(o.added, at) + Bool(at.0 in hooks.onAdd && v.None? && v'.Some?)
  {
    AddedMore(o.added, AddedBy(hooks, o, c), at);
  }

  /** The onRemove hooks of a column get each component of it that went, with the
      value it had then, in the order in which they went, and no other; those of
      a column without hooks are not moved out. */
  lemma {:induction false} HooksGetWhatWent<V>(hooks: Hooks, o: Outcome<V>, changes: seq<Change<V>>, at: At)
    requires o.removed == []
    ensures RemovedAt(Apply(hooks, o, changes).removed, at) ==
            if at.0 in hooks.onRemove then Gone(Values(ValueAt(o.cells, at), changes, at)) else []
  {
    if changes != [] {
      var init, c := changes[..|changes| - 1], changes[|changes| - 1];
      HooksGetWhatWent(hooks, o, init, at);
      OneRemoves(hooks, Apply(hooks, o, init), c, at);
      ComponentIsItsChanges(hooks, o, init, at);
      ComponentIsItsChanges(hooks, o, changes, at);
      ValuesBefore(ValueAt(o.cells, at), changes, at, |init|);
    }
  }

  /** And the onAdd hooks each one that came. */
  lemma {:induction false} HooksGetWhatCame<V>(hooks: Hooks, o: Outcome<V>, changes: seq<Change<V>>, at: At)
    requires o.added == []
    ensures AddedAt(Apply(hooks, o, changes).added, at) ==
            if at.0 in hooks.onAdd then Came(Values(ValueAt(o.cells, at), changes, at)) else 0
  {
    if changes != [] {
      var init, c := changes[..|changes| - 1], changes[|changes| - 1];
      HooksGetWhatCame(hooks, o, init, at);
      OneAdds(hooks, Apply(hooks, o, init), c, at);
      ComponentIsItsChanges(hooks, o, init, at);
      ComponentIsItsChanges(hooks, o, changes, at);
      ValuesBefore(ValueAt(o.cells, at), changes, at, |init|);
    }
  }

  lemma {:induction false} NoneOfColumn<V>(removed: seq<Removed<V>>, k: nat)
    requires k < |removed|
    ensures RemovedAt(removed, (removed[k].column, removed[k].index)) != []
  {
    if k < |removed| - 1 {
      NoneOfColumn(removed[..|removed| - 1], k);
    }
  }

  /** So nothing is lost between components and hooks: what went to the hooks of
      a column and what is there is what was there and what was made; and what
      was moved out is of columns with hooks. */
  lemma RemovalsAreConserved<V>(hooks: Hooks, o: Outcome<V>, changes: seq<Change<V>>, at: At)
    requires o.removed == [] && at.0 in hooks.onRemove
    ensures var r := Apply(hooks, o, changes);
      && |RemovedAt(r.removed, at)| + Bool(at in r.cells) == Bool(at in o.cells) + Came(Values(ValueAt(o.cells, at), changes, at))
      && (forall k | 0 <= k < |r.removed| :: r.removed[k].column in hooks.onRemove)
  {
    var r := Apply(hooks, o, changes);
    HooksGetWhatWent(hooks, o, changes, at);
    ComponentIsItsChanges(hooks, o, changes, at);
    FirstValue(ValueAt(o.cells, at), changes, at);
    GoneAndThere(Values(ValueAt(o.cells, at), changes, at));
    forall k | 0 <= k < |r.removed| ensures r.removed[k].column in hooks.onRemove {
      NoneOfColumn(r.removed, k);
      HooksGetWhatWent(hooks, o, changes, (r.removed[k].column, r.removed[k].index));
    }
  }

  lemma {:induction false} FirstValue<V>(value: Option<V>, changes: seq<Change<V>>, at: At)
    ensures Values(value, changes, at)[0] == value
  {
    if changes != [] {
      FirstValue(value, changes[..|changes| - 1], at);
    }
  }
}
