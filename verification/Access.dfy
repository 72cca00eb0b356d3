/**
 What a system reads and writes (SystemAccess of scheduler.hpp), and what it uses
 with everything its events and edits set off (Scheduler::effectiveAccess).
 */
module Access {
  import opened Lists

  /** A component, global value or cache, by its number. */
  datatype Use = Use(index: nat, write: bool)

  /** emits: the events it emits; modified and gotten: the components it edits
      and those it goes through in queries; columns: those whose columns are to
      be made, each by the maker of its component. */
  datatype SystemAccess = SystemAccess(components: seq<Use>, globals: seq<Use>, caches: seq<Use>, exclusive: bool,
                                       commands: bool, emits: seq<nat>, modified: seq<nat>, gotten: seq<nat>, columns: seq<nat>)

  predicate Uses(list: seq<Use>, index: nat) { exists k | 0 <= k < |list| :: list[k].index == index }

  predicate Writes(list: seq<Use>, index: nat) { exists k | 0 <= k < |list| :: list[k].index == index && list[k].write }

  /** One of the two writes what the other one uses. */
  predicate Meet(mine: seq<Use>, theirs: seq<Use>, index: nat) {
    Uses(mine, index) && Uses(theirs, index) && (Writes(mine, index) || Writes(theirs, index))
  }

  // --- lists of uses --------------------------------------------------------

  /** What a list is with one use more. */
  ghost predicate WithUse(before: seq<Use>, after: seq<Use>, use: Use) {
    && (forall j: nat :: Uses(after, j) <==> Uses(before, j) || j == use.index)
    && (forall j: nat :: Writes(after, j) <==> Writes(before, j) || (j == use.index && use.write))
  }

  /** addTo, and the same in addCache: the use that is there writes as well, or
      else a new one. */
  method AddTo(list: seq<Use>, use: Use) returns (more: seq<Use>)
    ensures WithUse(list, more, use) && |list| <= |more| <= |list| + 1
  {
    for k := 0 to |list|
      invariant forall i | 0 <= i < k :: list[i].index != use.index
    {
      if list[k].index == use.index {
        more := list[k := Use(use.index, list[k].write || use.write)];
        InPlace(list, more, k, use);
        return;
      }
    }
    more := list + [use];
    AtTheEnd(list, use);
  }

  lemma InPlace(list: seq<Use>, more: seq<Use>, k: nat, use: Use)
    requires k < |list| && list[k].index == use.index && more == list[k := Use(use.index, list[k].write || use.write)]
    ensures WithUse(list, more, use)
  {
    forall j: nat ensures Uses(more, j) <==> Uses(list, j) || j == use.index {
      assert forall i | 0 <= i < |list| :: more[i].index == list[i].index;
    }
    forall j: nat ensures Writes(more, j) <==> Writes(list, j) || (j == use.index && use.write) {
      assert forall i | 0 <= i < |list| && i != k :: more[i] == list[i];
      assert more[k].index == use.index && (more[k].write <==> list[k].write || use.write);
    }
  }

  lemma AtTheEnd(list: seq<Use>, use: Use)
    ensures WithUse(list, list + [use], use)
  {
    var more := list + [use];
    assert more[|list|] == use && forall i | 0 <= i < |list| :: more[i] == list[i];
  }

  ghost predicate IsUnion(one: seq<Use>, other: seq<Use>, both: seq<Use>) {
    && (forall j: nat :: Uses(both, j) <==> Uses(one, j) || Uses(other, j))
    && (forall j: nat :: Writes(both, j) <==> Writes(one, j) || Writes(other, j))
  }

  method Union(one: seq<Use>, other: seq<Use>) returns (both: seq<Use>)
    ensures IsUnion(one, other, both)
  {
    both := one;
    for k := 0 to |other|
      invariant IsUnion(one, other[..k], both)
    {
      var more := AddTo(both, other[k]);
      OneMore(one, other, k, both, more);
      both := more;
    }
    assert other[..|other|] == other;
  }

  lemma OneMore(one: seq<Use>, other: seq<Use>, k: nat, both: seq<Use>, more: seq<Use>)
    requires k < |other| && IsUnion(one, other[..k], both) && WithUse(both, more, other[k])
    ensures IsUnion(one, other[..k + 1], more)
  {
    AtTheEnd(other[..k], other[k]);
    assert other[..k + 1] == other[..k] + [other[k]];
  }

  /** overlap. */
  method Overlap(mine: seq<Use>, theirs: seq<Use>) returns (some: bool)
    ensures some <==> exists index: nat :: Meet(mine, theirs, index)
  {
    for i := 0 to |mine|
      invariant forall k, l | 0 <= k < i && 0 <= l < |theirs| :: !Clash(mine[k], theirs[l])
    {
      for j := 0 to |theirs|
        invariant forall l | 0 <= l < j :: !Clash(mine[i], theirs[l])
      {
        if mine[i].index == theirs[j].index && (mine[i].write || theirs[j].write) {
          assert Meet(mine, theirs, mine[i].index);
          return true;
        }
      }
    }
    some := false;
  }

  predicate Clash(one: Use, other: Use) { one.index == other.index && (one.write || other.write) }

  // --- accesses -------------------------------------------------------------

  /** addEmit, and addColumn. */
  method AddEmit(emits: seq<nat>, tag: nat) returns (more: seq<nat>)
    requires Once(emits)
    ensures Once(more) && emits <= more && forall e :: e in more <==> e in emits || e == tag
  {
    more := if tag in emits then emits else emits + [tag];
  }

  method AddEmits(emits: seq<nat>, tags: seq<nat>) returns (more: seq<nat>)
    requires Once(emits)
    ensures Once(more) && emits <= more && forall e :: e in more <==> e in emits || e in tags
  {
    more := emits;
    for k := 0 to |tags|
      invariant Once(more) && emits <= more && forall e :: e in more <==> e in emits || e in tags[..k]
    {
      more := AddEmit(more, tags[k]);
    }
  }

  /** Everything of both, and the order in which the rest of effectiveAccess
      goes through it. */
  ghost predicate IsMerged(one: SystemAccess, other: SystemAccess, both: SystemAccess) {
    && IsUnion(one.components, other.components, both.components) && IsUnion(one.globals, other.globals, both.globals)
    && IsUnion(one.caches, other.caches, both.caches)
    && both.exclusive == (one.exclusive || other.exclusive) && both.commands == (one.commands || other.commands)
    && Once(both.emits) && one.emits <= both.emits && (forall e :: e in both.emits <==> e in one.emits || e in other.emits)
    && both.modified == one.modified + other.modified && both.gotten == one.gotten + other.gotten
    && Once(both.columns) && one.columns <= both.columns
    && (forall c :: c in both.columns <==> c in one.columns || c in other.columns)
  }

  method Merge(one: SystemAccess, other: SystemAccess) returns (both: SystemAccess)
    requires Once(one.emits) && Once(one.columns)
    ensures IsMerged(one, other, both)
  {
    var components := Union(one.components, other.components);
    var globals := Union(one.globals, other.globals);
    var caches := Union(one.caches, other.caches);
    var emits := AddEmits(one.emits, other.emits);
    var columns := AddEmits(one.columns, other.columns);
    both := SystemAccess(components, globals, caches, one.exclusive || other.exclusive, one.commands || other.commands,
      emits, one.modified + other.modified, one.gotten + other.gotten, columns);
  }

  datatype Resource = Component(index: nat) | Global(index: nat) | Cache(index: nat)

  predicate Takes(access: SystemAccess, resource: Resource) {
    match resource
    case Component(index) => Uses(access.components, index)
    case Global(index) => Uses(access.globals, index)
    case Cache(index) => Uses(access.caches, index)
  }

  predicate Changes(access: SystemAccess, resource: Resource) {
    match resource
    case Component(index) => Writes(access.components, index)
    case Global(index) => Writes(access.globals, index)
    case Cache(index) => Writes(access.caches, index)
  }

  /** All there is to say of an access. */
  datatype Fact = ItTakes(resource: Resource) | ItChanges(resource: Resource) | ItIsExclusive | ItHasCommands
    | ItEmits(tag: nat) | ItEdits(component: nat) | ItGets(component: nat) | ItMakes(component: nat)

  predicate Has(access: SystemAccess, fact: Fact) {
    match fact
    case ItTakes(resource) => Takes(access, resource)
    case ItChanges(resource) => Changes(access, resource)
    case ItIsExclusive => access.exclusive
    case ItHasCommands => access.commands
    case ItEmits(tag) => tag in access.emits
    case ItEdits(component) => component in access.modified
    case ItGets(component) => component in access.gotten
    case ItMakes(component) => component in access.columns
  }

  /** merge says of both what it says of either. */
  lemma MergedHas(one: SystemAccess, other: SystemAccess, both: SystemAccess, fact: Fact)
    requires IsMerged(one, other, both)
    ensures Has(both, fact) <==> Has(one, fact) || Has(other, fact)
  {}

  /** One takes the world, or one changes what the other one takes. */
  ghost predicate Conflict(one: SystemAccess, other: SystemAccess) {
    || one.exclusive || other.exclusive
    || exists r: Resource :: Clashing(one, other, r)
  }

  /** One changes it, and the other one takes it. */
  predicate Clashing(one: SystemAccess, other: SystemAccess, r: Resource) {
    Takes(one, r) && Takes(other, r) && (Changes(one, r) || Changes(other, r))
  }

  method ConflictsWith(one: SystemAccess, other: SystemAccess) returns (conflict: bool)
    ensures conflict <==> Conflict(one, other)
  {
    var components := Overlap(one.components, other.components);
    var globals := Overlap(one.globals, other.globals);
    var caches := Overlap(one.caches, other.caches);
    MeetIsConflict(one, other);
    conflict := one.exclusive || other.exclusive || components || globals || caches;
  }

  /** What the three lists meet at. */
  lemma MeetIsConflict(one: SystemAccess, other: SystemAccess)
    ensures (exists r: Resource :: Clashing(one, other, r)) <==>
      || (exists i: nat :: Meet(one.components, other.components, i))
      || (exists i: nat :: Meet(one.globals, other.globals, i))
      || (exists i: nat :: Meet(one.caches, other.caches, i))
  {
    forall i: nat | Meet(one.components, other.components, i) ensures Clashing(one, other, Component(i)) {}
    forall i: nat | Meet(one.globals, other.globals, i) ensures Clashing(one, other, Global(i)) {}
    forall i: nat | Meet(one.caches, other.caches, i) ensures Clashing(one, other, Cache(i)) {}
    forall r: Resource | Clashing(one, other, r)
      ensures || Meet(one.components, other.components, r.index) || Meet(one.globals, other.globals, r.index)
              || Meet(one.caches, other.caches, r.index)
    {}
  }
}
