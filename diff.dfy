/**
 * `diff(scope, before, after)`, the same function in src/atrace/__init__.py,
 * src/atrace/core/analyzer.py and src/atrace/analyzer.py: the assignments
 * that turn the snapshot `before` into the snapshot `after`.
 */
module Diffing {
  import opened PyModel
  import opened TraceModel

  /** What the first loop has written after visiting `after`'s entries in order. */
  function Changed(scope: string, before: Symbols, after: Symbols): Assignments
    decreases |after|
  {
    if after == [] then []
    else
      var (name, val) := after[|after| - 1];
      var rest := Changed(scope, before, after[..|after| - 1]);
      if Get(before, name) != Some(val) then Put(rest, Var(scope, name), Val(val)) else rest
  }

  /**
   * What the second loop has written, starting from `acc`, after visiting
   * the names of `before` that `after` lacks. Python iterates the set
   * `before.keys() - after.keys()`, whose order is unspecified; the model
   * visits them in `before`'s order.
   */
  function Unassigned(acc: Assignments, scope: string, before: Symbols, after: Symbols): Assignments
    decreases |before|
  {
    if before == [] then acc
    else
      var name := before[|before| - 1].0;
      var rest := Unassigned(acc, scope, before[..|before| - 1], after);
      if name !in Keys(after) then Put(rest, Var(scope, name), Unassign) else rest
  }

  function DiffOf(scope: string, before: Symbols, after: Symbols): Assignments {
    Unassigned(Changed(scope, before, after), scope, before, after)
  }

  lemma {:induction false} ChangedSnoc(scope: string, before: Symbols, after: Symbols, i: nat)
    requires i < |after|
    ensures var (name, val) := after[i];
            var rest := Changed(scope, before, after[..i]);
            Changed(scope, before, after[..i + 1]) == if Get(before, name) != Some(val) then Put(rest, Var(scope, name), Val(val)) else rest
  {
    assert after[..i + 1][..i] == after[..i];
    assert after[..i + 1][i] == after[i];
  }

  lemma {:induction false} UnassignedSnoc(acc: Assignments, scope: string, before: Symbols, after: Symbols, j: nat)
    requires j < |before|
    ensures var name := before[j].0;
            var rest := Unassigned(acc, scope, before[..j], after);
            Unassigned(acc, scope, before[..j + 1], after) == if name !in Keys(after) then Put(rest, Var(scope, name), Unassign) else rest
  {
    assert before[..j + 1][..j] == before[..j];
    assert before[..j + 1][j] == before[j];
  }

  /** `diff`, with its two loops */
  method Diff(scope: string, before: Symbols, after: Symbols) returns (assignments: Assignments)
    ensures assignments == DiffOf(scope, before, after)
  {
    assignments := [];
    var i := 0;
    while i < |after|
      invariant 0 <= i <= |after|
      invariant assignments == Changed(scope, before, after[..i])
    {
      var (name, val) := after[i];
      ChangedSnoc(scope, before, after, i);
      assert (name !in Keys(before) || Get(before, name).value != val) == (Get(before, name) != Some(val));
      if name !in Keys(before) || Get(before, name).value != val {
        assignments := Put(assignments, Var(scope, name), Val(val));
      }
      assert assignments == Changed(scope, before, after[..i + 1]);
      i := i + 1;
    }
    assert after[..i] == after;
    ghost var changed := assignments;
    var j := 0;
    while j < |before|
      invariant 0 <= j <= |before|
      invariant assignments == Unassigned(changed, scope, before[..j], after)
    {
      var name := before[j].0;
      UnassignedSnoc(changed, scope, before, after, j);
      if name !in Keys(after) {
        assignments := Put(assignments, Var(scope, name), Unassign);
      }
      assert assignments == Unassigned(changed, scope, before[..j + 1], after);
      j := j + 1;
    }
    assert before[..j] == before;
  }

  /** The entry `diff` holds for a variable, derived from the two snapshots. */
  function Expected(scope: string, before: Symbols, after: Symbols, w: Var): Option<Assigned> {
    if w.scope != scope then None
    else if Get(after, w.name).Some? then
      (if Get(before, w.name) == Get(after, w.name) then None else Some(Val(Get(after, w.name).value)))
    else if Get(before, w.name).Some? then Some(Unassign)
    else None
  }

  lemma {:induction false} GetSnoc<K, V>(d: Dict<K, V>, p: (K, V), k: K)
    ensures Get(d + [p], k) == if Get(d, k).Some? then Get(d, k) else if p.0 == k then Some(p.1) else None
  {
    if d != [] {
      assert (d + [p])[1..] == d[1..] + [p];
      GetSnoc(d[1..], p, k);
    }
  }

  /** `Get` on a dict seen as its front followed by its last entry */
  lemma {:induction false} GetFront<K, V>(d: Dict<K, V>, k: K)
    requires d != []
    ensures Get(d, k) == if Get(d[..|d| - 1], k).Some? then Get(d[..|d| - 1], k)
                         else if d[|d| - 1].0 == k then Some(d[|d| - 1].1) else None
  {
    assert d == d[..|d| - 1] + [d[|d| - 1]];
    GetSnoc(d[..|d| - 1], d[|d| - 1], k);
  }

  lemma {:induction false} FrontIsDict<K, V>(d: Dict<K, V>)
    requires IsDict(d) && d != []
    ensures IsDict(d[..|d| - 1]) && d[|d| - 1].0 !in Keys(d[..|d| - 1])
  {
  }

  lemma {:induction false} ChangedGet(scope: string, before: Symbols, after: Symbols, w: Var)
    requires IsDict(after)
    ensures Get(Changed(scope, before, after), w) ==
            if w.scope == scope && Get(after, w.name).Some? && Get(before, w.name) != Get(after, w.name)
            then Some(Val(Get(after, w.name).value)) else None
    decreases |after|
  {
    if after != [] {
      var front := after[..|after| - 1];
      var (name, val) := after[|after| - 1];
      FrontIsDict(after);
      ChangedGet(scope, before, front, w);
      GetPut(Changed(scope, before, front), Var(scope, name), Val(val), w);
      GetFront(after, w.name);
    }
  }

  lemma {:induction false} ChangedIsDict(scope: string, before: Symbols, after: Symbols)
    ensures IsDict(Changed(scope, before, after))
    decreases |after|
  {
    if after != [] {
      var (name, val) := after[|after| - 1];
      ChangedIsDict(scope, before, after[..|after| - 1]);
      PutIsDict(Changed(scope, before, after[..|after| - 1]), Var(scope, name), Val(val));
    }
  }

  lemma {:induction false} UnassignedGet(acc: Assignments, scope: string, before: Symbols, after: Symbols, w: Var)
    requires IsDict(before)
    ensures Get(Unassigned(acc, scope, before, after), w) ==
            if w.scope == scope && Get(before, w.name).Some? && w.name !in Keys(after) then Some(Unassign) else Get(acc, w)
    decreases |before|
  {
    if before != [] {
      var front := before[..|before| - 1];
      var last := before[|before| - 1];
      var r := Unassigned(acc, scope, front, after);
      FrontIsDict(before);
      UnassignedGet(acc, scope, front, after, w);
      GetFront(before, w.name);
      var gone := last.0 !in Keys(after);
      var u := Unassigned(acc, scope, before, after);
      assert u == if gone then Put(r, Var(scope, last.0), Unassign) else r;
      if gone {
        GetPut(r, Var(scope, last.0), Unassign, w);
      }
    }
  }

  lemma {:induction false} UnassignedIsDict(acc: Assignments, scope: string, before: Symbols, after: Symbols)
    requires IsDict(acc)
    ensures IsDict(Unassigned(acc, scope, before, after))
    decreases |before|
  {
    if before != [] {
      var name := before[|before| - 1].0;
      UnassignedIsDict(acc, scope, before[..|before| - 1], after);
      PutIsDict(Unassigned(acc, scope, before[..|before| - 1], after), Var(scope, name), Unassign);
    }
  }

  /**
   * `diff` maps each name of `after` that is new or whose value changed to
   * its new value, each name only in `before` to `UNASSIGN`, and nothing
   * else; every key carries the given scope, and the result is a dict.
   */
  lemma {:induction false} DiffGet(scope: string, before: Symbols, after: Symbols, w: Var)
    requires IsDict(before) && IsDict(after)
    ensures Get(DiffOf(scope, before, after), w) == Expected(scope, before, after, w)
    ensures IsDict(DiffOf(scope, before, after))
  {
    ChangedGet(scope, before, after, w);
    UnassignedGet(Changed(scope, before, after), scope, before, after, w);
    ChangedIsDict(scope, before, after);
    UnassignedIsDict(Changed(scope, before, after), scope, before, after);
  }

  /** Every key of a diff carries the diff's scope. */
  lemma {:induction false} DiffScope(scope: string, before: Symbols, after: Symbols, w: Var)
    requires IsDict(before) && IsDict(after)
    requires w in Keys(DiffOf(scope, before, after))
    ensures w.scope == scope
  {
    DiffGet(scope, before, after, w);
  }

  /** A snapshot compared with itself has no differences. */
  lemma {:induction false} DiffOfSame(scope: string, s: Symbols)
    requires IsDict(s)
    ensures DiffOf(scope, s, s) == []
  {
    var d := DiffOf(scope, s, s);
    if d != [] {
      assert d[0].0 in Keys(d);
      DiffGet(scope, s, s, d[0].0);
      assert false;
    }
  }

  /** Against an empty snapshot every entry of `after` is new: `diff(fn, {}, locals)`. */
  lemma {:induction false} DiffFromEmpty(scope: string, after: Symbols, name: string)
    requires IsDict(after)
    ensures Get(DiffOf(scope, [], after), Var(scope, name)) ==
            if Get(after, name).Some? then Some(Val(Get(after, name).value)) else None
  {
    DiffGet(scope, [], after, Var(scope, name));
  }
}
