// The diff/merge engine of utils/diff.rs: `apply_diff`, `generate_diff`, and the
// laws the buffered tag stores rest on.
module Diff {
  import opened Json

  /** `apply_diff`. With `doDelete` a null in the diff deletes its key; without, it is stored. */
  function ApplyDiff(data: Value, diff: Value, doDelete: bool): Value
    decreases diff
  {
    if !diff.Obj? || !data.Obj? then diff
    else Obj(
      map k | k in data.m.Keys + diff.m.Keys && !(doDelete && k in diff.m && diff.m[k].Null?) ::
        if k !in diff.m then data.m[k]
        else if diff.m[k].Obj? then ApplyDiff(Child(data, k), diff.m[k], doDelete)
        else diff.m[k])
  }

  // `data.get(k, {})`.
  function Child(data: Value, k: string): Value
    requires data.Obj?
  {
    if k in data.m then data.m[k] else EMPTY
  }

  function Merge(data: Value, diff: Value): Value {
    ApplyDiff(data, diff, false)
  }

  /** `generate_diff`: an object-valued key whose sub-diff comes out empty is left out. */
  function GenerateDiff(was: Value, now: Value, doDelete: bool): (diff: Value)
    ensures diff.Obj? <==> now.Obj?
    decreases now, 2
  {
    if !was.Obj? || !now.Obj? then now
    else Obj(Changed(was, now, doDelete) + Deleted(was, now, doDelete))
  }

  function Changed(was: Value, now: Value, doDelete: bool): map<string, Value>
    requires was.Obj? && now.Obj?
    decreases now, 1
  {
    map k | k in now.m && Differs(was, now, k, doDelete) ::
      if now.m[k].Obj? then GenerateDiff(Child(was, k), now.m[k], doDelete) else now.m[k]
  }

  function Deleted(was: Value, now: Value, doDelete: bool): map<string, Value>
    requires was.Obj? && now.Obj?
  {
    map k | k in was.m && doDelete && k !in now.m :: Null
  }

  predicate Differs(was: Value, now: Value, k: string, doDelete: bool)
    requires was.Obj? && now.Obj? && k in now.m
    decreases now, 0
  {
    if now.m[k].Obj? then !IsEmptyObject(GenerateDiff(Child(was, k), now.m[k], doDelete))
    else k !in was.m || !PyEq(was.m[k], now.m[k])
  }

  // ---- the loops of the source ----

  // The two maps hold the same thing, or both nothing, at `k`.
  predicate SameAt(a: map<string, Value>, b: map<string, Value>, k: string) {
    (k in a <==> k in b) && (k in a ==> a[k] == b[k])
  }

  lemma SameEverywhere(a: map<string, Value>, b: map<string, Value>)
    requires forall k :: SameAt(a, b, k)
    ensures a == b
  {
    forall k ensures k in a <==> k in b {
      assert SameAt(a, b, k);
    }
    forall k | k in a ensures a[k] == b[k] {
      assert SameAt(a, b, k);
    }
  }

  method ApplyDiffInPlace(data: Value, diff: Value, doDelete: bool) returns (out: Value)
    ensures out == ApplyDiff(data, diff, doDelete)
    decreases diff
  {
    if !diff.Obj? || !data.Obj? {
      return diff;
    }
    ghost var target := ApplyDiff(data, diff, doDelete).m;
    var entries := data.m;
    var todo := diff.m.Keys;
    while todo != {}
      invariant todo <= diff.m.Keys
      invariant forall k :: SameAt(entries, if k in todo then data.m else target, k)
      decreases todo
    {
      var k :| k in todo;
      var v := diff.m[k];
      assert SameAt(entries, data.m, k);
      ghost var before := entries;
      if v.Obj? {
        var child := if k in entries then entries[k] else EMPTY;
        child := ApplyDiffInPlace(child, v, doDelete);
        entries := entries[k := child];
      } else if v.Null? && doDelete {
        entries := entries - {k};
      } else {
        entries := entries[k := v];
      }
      todo := todo - {k};
      assert SameAt(entries, target, k);
      assert forall j :: j != k ==> SameAt(entries, before, j);
    }
    SameEverywhere(entries, target);
    out := Obj(entries);
  }

  method GenerateDiffLoop(was: Value, now: Value, doDelete: bool) returns (out: Value)
    ensures out == GenerateDiff(was, now, doDelete)
    decreases now
  {
    if !was.Obj? || !now.Obj? {
      return now;
    }
    ghost var target := Changed(was, now, doDelete);
    var diff: map<string, Value> := map[];
    var todo := now.m.Keys;
    while todo != {}
      invariant todo <= now.m.Keys
      invariant forall k :: SameAt(diff, if k in todo then map[] else target, k)
      decreases todo
    {
      var k :| k in todo;
      var v := now.m[k];
      assert SameAt(diff, map[], k);
      ghost var before := diff;
      if v.Obj? {
        var d := GenerateDiffLoop(Child(was, k), v, doDelete);
        if d.Obj? && d.m != map[] {
          diff := diff[k := d];
        }
      } else if k !in was.m || !PyEq(was.m[k], v) {
        diff := diff[k := v];
      }
      todo := todo - {k};
      assert k in target <==> Differs(was, now, k, doDelete);
      assert SameAt(diff, target, k);
      assert forall j :: j != k ==> SameAt(diff, before, j);
    }
    SameEverywhere(diff, target);
    if doDelete {
      diff := MarkDeleted(diff, was, now);
    }
    out := Obj(diff);
  }

  method MarkDeleted(changed: map<string, Value>, was: Value, now: Value) returns (diff: map<string, Value>)
    requires was.Obj? && now.Obj?
    ensures diff == changed + Deleted(was, now, true)
  {
    diff := changed;
    var todo := was.m.Keys;
    while todo != {}
      invariant todo <= was.m.Keys
      invariant diff == changed + map k | k in was.m && k !in todo && k !in now.m :: Null
      decreases todo
    {
      var k :| k in todo;
      if k !in now.m {
        diff := diff[k := Null];
      }
      todo := todo - {k};
    }
  }
}
