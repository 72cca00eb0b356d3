/** A step again and again, and what it leads to. */
module Iterations {

  ghost predicate Follows<T>(step: T -> T, path: seq<T>, i: nat)
    requires i + 1 < |path|
  {
    path[i + 1] == step(path[i])
  }

  ghost predicate IsPath<T>(step: T -> T, path: seq<T>, x: T, y: T) {
    && |path| > 0 && path[0] == x && path[|path| - 1] == y
    && forall i | 0 <= i < |path| - 1 :: Follows(step, path, i)
  }

  /** Some number of steps leads from one to the other. */
  ghost predicate Leads<T(!new)>(step: T -> T, x: T, y: T) { exists path: seq<T> :: IsPath(step, path, x, y) }

  lemma PathsJoin<T>(step: T -> T, a: seq<T>, b: seq<T>, x: T, y: T, z: T)
    requires IsPath(step, a, x, y) && IsPath(step, b, y, z)
    ensures IsPath(step, a + b[1..], x, z)
  {
    var path := a + b[1..];
    forall i | 0 <= i < |path| - 1 ensures Follows(step, path, i) {
      if i < |a| - 1 {
        assert Follows(step, a, i);
      } else {
        assert Follows(step, b, i - (|a| - 1));
      }
    }
  }

  lemma LeadsOn<T(!new)>(step: T -> T, x: T, y: T, z: T)
    requires Leads(step, x, y) && Leads(step, y, z)
    ensures Leads(step, x, z)
  {
    var a :| IsPath(step, a, x, y);
    var b :| IsPath(step, b, y, z);
    PathsJoin(step, a, b, x, y, z);
  }

  lemma LeadsHere<T(!new)>(step: T -> T, x: T)
    ensures Leads(step, x, x)
  {
    assert IsPath(step, [x], x, x);
  }

  lemma LeadsOnce<T(!new)>(step: T -> T, x: T)
    ensures Leads(step, x, step(x))
  {
    assert Follows(step, [x, step(x)], 0);
    assert IsPath(step, [x, step(x)], x, step(x));
  }

  lemma LeadsFirst<T(!new)>(step: T -> T, x: T, y: T)
    requires Leads(step, step(x), y)
    ensures Leads(step, x, y)
  {
    LeadsOnce(step, x);
    LeadsOn(step, x, step(x), y);
  }

  /** A path without its first step. */
  lemma PathRest<T>(step: T -> T, path: seq<T>, x: T, y: T)
    requires IsPath(step, path, x, y) && |path| > 1
    ensures IsPath(step, path[1..], step(x), y)
  {
    assert Follows(step, path, 0);
    forall i | 0 <= i < |path[1..]| - 1 ensures Follows(step, path[1..], i) {
      assert Follows(step, path, i + 1);
    }
  }
}
