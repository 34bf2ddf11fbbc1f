// Tag paths and the removal of promoted paths (tags/mod.rs), and how removal
// trades places with merging.
module KeyPaths {
  import opened Json
  import opened Wrappers
  import opened Diff
  import opened DiffLaws

  // `KeyPath::scoped`: an empty app key gives a global path.
  function Scoped(appKey: string, key: string): seq<string> {
    if appKey == "" then [key] else [appKey, key]
  }

  function Construct(path: seq<string>, value: Value): Value {
    if path == [] then value else Single(path[0], Construct(path[1..], value))
  }

  function Lookup(path: seq<string>, root: Value): Option<Value> {
    if path == [] then Some(root)
    else if root.Obj? && path[0] in root.m then Lookup(path[1..], root.m[path[0]])
    else None
  }

  method ConstructLoop(path: seq<string>, value: Value) returns (result: Value)
    ensures result == Construct(path, value)
  {
    result := value;
    var i := |path|;
    while 0 < i
      invariant 0 <= i <= |path|
      invariant result == Construct(path[i..], value)
    {
      i := i - 1;
      result := Single(path[i], result);
      assert path[i..][1..] == path[i + 1..];
    }
  }

  method LookupLoop(path: seq<string>, root: Value) returns (found: Option<Value>)
    ensures found == Lookup(path, root)
  {
    var current := root;
    for i := 0 to |path|
      invariant Lookup(path[i..], current) == Lookup(path, root)
    {
      if !current.Obj? || path[i] !in current.m {
        return None;
      }
      current := current.m[path[i]];
      assert path[i..][1..] == path[i + 1..];
    }
    return Some(current);
  }

  lemma {:induction false} LookupConstruct(path: seq<string>, value: Value)
    ensures Lookup(path, Construct(path, value)) == Some(value)
  {
    if path != [] {
      LookupConstruct(path[1..], value);
    }
  }

  // ---- strip_paths ----

  function StripPaths(target: Value, paths: Value): Value
    decreases target, 1
  {
    if !target.Obj? || !paths.Obj? then target
    else Obj(map k | k in target.m && Survives(target, paths, k) ::
               if k in paths.m then StripPaths(target.m[k], paths.m[k]) else target.m[k])
  }

  // An object emptied by the removal goes with its last leaf.
  predicate Survives(target: Value, paths: Value, k: string)
    requires target.Obj? && paths.Obj? && k in target.m
    decreases target, 0
  {
    k in paths.m ==>
      target.m[k].Obj? && paths.m[k].Obj? && StripPaths(target.m[k], paths.m[k]) != EMPTY
  }

  method StripPathsInPlace(target: Value, paths: Value) returns (out: Value)
    ensures out == StripPaths(target, paths)
    decreases target
  {
    if !target.Obj? || !paths.Obj? {
      return target;
    }
    ghost var goal := StripPaths(target, paths).m;
    var entries := target.m;
    var todo := paths.m.Keys;
    forall k | k !in paths.m ensures SameAt(entries, goal, k) {
      StripAt(target, paths, k);
    }
    while todo != {}
      invariant todo <= paths.m.Keys
      invariant forall k :: SameAt(entries, if k in todo then target.m else goal, k)
      decreases todo
    {
      var k :| k in todo;
      var v := paths.m[k];
      assert SameAt(entries, target.m, k);
      ghost var before := entries;
      if k in entries {
        if v.Obj? && entries[k].Obj? {
          var rest := StripPathsInPlace(entries[k], v);
          entries := entries[k := rest];
          if rest.Obj? && rest.m == map[] {
            entries := entries - {k};
          }
        } else {
          entries := entries - {k};
        }
      }
      todo := todo - {k};
      assert k in target.m ==> (k in goal <==> Survives(target, paths, k));
      assert SameAt(entries, goal, k);
      assert forall j :: j != k ==> SameAt(entries, before, j);
    }
    SameEverywhere(entries, goal);
    out := Obj(entries);
  }

  lemma StripAt(target: Value, paths: Value, k: string)
    requires target.Obj? && paths.Obj?
    ensures var s := StripPaths(target, paths);
      && s.Obj?
      && (k in s.m <==> k in target.m && Survives(target, paths, k))
      && (k in s.m ==> s.m[k] == if k in paths.m then StripPaths(target.m[k], paths.m[k]) else target.m[k])
  {
  }

  // No group in `v` is empty.
  predicate Solid(v: Value) {
    v.Obj? ==> forall k | k in v.m :: v.m[k] != EMPTY && Solid(v.m[k])
  }

  // Stripping leaves no empty group behind where there was none.
  lemma {:induction false} StripKeepsSolid(target: Value, paths: Value)
    requires Solid(target)
    ensures Solid(StripPaths(target, paths))
    decreases target
  {
    if target.Obj? && paths.Obj? {
      var r := StripPaths(target, paths);
      forall k | k in r.m ensures r.m[k] != EMPTY && Solid(r.m[k]) {
        StripAt(target, paths, k);
        if k in paths.m {
          StripKeepsSolid(target.m[k], paths.m[k]);
        }
      }
    }
  }

  function AsObject(v: Value): Value {
    if v.Obj? then v else EMPTY
  }

  // Moving a write ahead of a buffer: after stripping the buffer of the write's
  // paths the order no longer matters, under exactly the associativity condition.
  lemma {:induction false} StripExchange(x: Value, buffer: Value, w: Value)
    requires x.Obj? && buffer.Obj? && w.Obj?
    ensures Merge(Merge(x, buffer), w) == Merge(Merge(x, w), StripPaths(buffer, w)) <==> Associates(x, buffer, w)
    decreases buffer, 1
  {
    var l, r := Merge(Merge(x, buffer), w), Merge(Merge(x, w), StripPaths(buffer, w));
    forall k ensures SameAt(l.m, r.m, k) <==> AssociatesAt(x, buffer, w, k) {
      StripExchangeAt(x, buffer, w, k);
    }
    if Associates(x, buffer, w) {
      assert forall k :: AssociatesAt(x, buffer, w, k);
      SameEverywhere(l.m, r.m);
    }
    if l == r {
      forall k | k in x.m && k in buffer.m && k in w.m ensures Associates(x.m[k], buffer.m[k], w.m[k]) {
        assert SameAt(l.m, r.m, k);
        assert AssociatesAt(x, buffer, w, k);
      }
    }
  }

  predicate AssociatesAt(x: Value, buffer: Value, w: Value, k: string)
    requires x.Obj? && buffer.Obj? && w.Obj?
  {
    k in x.m && k in buffer.m && k in w.m ==> Associates(x.m[k], buffer.m[k], w.m[k])
  }

  lemma {:induction false} StripExchangeAt(x: Value, buffer: Value, w: Value, k: string)
    requires x.Obj? && buffer.Obj? && w.Obj?
    ensures SameAt(Merge(Merge(x, buffer), w).m, Merge(Merge(x, w), StripPaths(buffer, w)).m, k)
            <==> AssociatesAt(x, buffer, w, k)
    decreases buffer, 0
  {
    MergeAt(x, buffer, k); MergeAt(Merge(x, buffer), w, k);
    MergeAt(x, w, k); MergeAt(Merge(x, w), StripPaths(buffer, w), k);
    StripAt(buffer, w, k);
    if k in buffer.m && k in w.m && w.m[k].Obj? {
      var xk := Child(x, k);
      MergeEmpty(Merge(xk, w.m[k]));
      MergeOntoEmpty(w.m[k]);
      if buffer.m[k].Obj? {
        MergeOntoEmpty(buffer.m[k]);
        StripExchange(AsObject(xk), buffer.m[k], w.m[k]);
      } else {
        CoveredIsOverwritten(xk, w.m[k]);
      }
    }
  }

  lemma MergeEmpty(v: Value)
    requires v.Obj?
    ensures Merge(v, EMPTY) == v
  {
    assert Merge(v, EMPTY).m == v.m;
  }

  // ---- layouts ----

  // `layout` fixes which paths hold tags (its plain values) and which hold groups
  // of tags (its objects).
  predicate Fits(v: Value, layout: Value) {
    if layout.Obj? then v.Obj? && forall k | k in v.m :: k in layout.m && Fits(v.m[k], layout.m[k])
    else !v.Obj?
  }

  lemma {:induction false} ApplyFits(a: Value, b: Value, doDelete: bool, layout: Value)
    requires Fits(a, layout) && Fits(b, layout)
    ensures Fits(ApplyDiff(a, b, doDelete), layout)
    decreases b
  {
    if layout.Obj? {
      var r := ApplyDiff(a, b, doDelete);
      forall k | k in r.m ensures k in layout.m && Fits(r.m[k], layout.m[k]) {
        if k in b.m && b.m[k].Obj? {
          ApplyFits(Child(a, k), b.m[k], doDelete, layout.m[k]);
        }
      }
    }
  }

  lemma {:induction false} StripFits(target: Value, paths: Value, layout: Value)
    requires Fits(target, layout)
    ensures Fits(StripPaths(target, paths), layout)
    decreases target
  {
    if target.Obj? && paths.Obj? {
      forall k | k in StripPaths(target, paths).m
        ensures k in layout.m && Fits(StripPaths(target, paths).m[k], layout.m[k])
      {
        if k in paths.m {
          StripFits(target.m[k], paths.m[k], layout.m[k]);
        }
      }
    }
  }

  lemma {:induction false} FitsAssociates(a: Value, b: Value, c: Value, layout: Value)
    requires Fits(a, layout) && Fits(b, layout) && Fits(c, layout)
    ensures Associates(a, b, c)
  {
    if layout.Obj? {
      forall k | k in a.m && k in b.m && k in c.m ensures Associates(a.m[k], b.m[k], c.m[k]) {
        FitsAssociates(a.m[k], b.m[k], c.m[k], layout.m[k]);
      }
    }
  }

  // ---- one tag ----

  // `v` has groups along `path`, and a plain value or nothing at its end.
  predicate Slotted(path: seq<string>, v: Value) {
    if path == [] then !v.Obj?
    else v.Obj? && (path[0] in v.m ==> Slotted(path[1..], v.m[path[0]]))
  }

  lemma {:induction false} SlotMerge(path: seq<string>, a: Value, b: Value)
    requires Slotted(path, a) && Slotted(path, b)
    ensures Slotted(path, Merge(a, b))
    ensures Lookup(path, Merge(a, b)) == if Lookup(path, b).Some? then Lookup(path, b) else Lookup(path, a)
  {
    if path != [] {
      MergeAt(a, b, path[0]);
      if path[0] in a.m && path[0] in b.m {
        SlotMerge(path[1..], a.m[path[0]], b.m[path[0]]);
      }
    }
  }

  // Publishing leaves a reader who takes a null for a missing key what overlaying does.
  lemma {:induction false} SlotPublish(path: seq<string>, data: Value, diff: Value)
    requires path != [] && Slotted(path, data) && Slotted(path, diff)
    ensures var r := ApplyDiff(data, diff, true);
      && Slotted(path, r)
      && Lookup(path, r) == (match Lookup(path, diff)
                             case None => Lookup(path, data)
                             case Some(v) => if v.Null? then None else Some(v))
  {
    var k, rest := path[0], path[1..];
    var r := ApplyDiff(data, diff, true);
    if k in diff.m && diff.m[k].Obj? {
      assert r.m[k] == ApplyDiff(Child(data, k), diff.m[k], true);
      if rest != [] {
        SlotPublish(rest, Child(data, k), diff.m[k]);
      }
    } else if k in diff.m {
      assert rest == [];
    }
  }

  lemma {:induction false} SlotStrip(path: seq<string>, target: Value, w: Value)
    requires path != [] && Slotted(path, target) && Slotted(path, w)
    ensures Slotted(path, StripPaths(target, w))
    ensures Lookup(path, StripPaths(target, w)) == if Lookup(path, w).Some? then None else Lookup(path, target)
  {
    var k, rest := path[0], path[1..];
    StripAt(target, w, k);
    if k in target.m && k in w.m && rest != [] {
      SlotStrip(rest, target.m[k], w.m[k]);
    }
  }

  lemma {:induction false} ConstructSlotted(path: seq<string>, value: Value)
    requires !value.Obj?
    ensures Slotted(path, Construct(path, value))
  {
    if path != [] {
      ConstructSlotted(path[1..], value);
    }
  }

  // A write to a path that neither contains `path` nor is contained in it.
  lemma {:induction false} ConstructElsewhere(path: seq<string>, other: seq<string>, value: Value)
    requires !(path <= other) && !(other <= path)
    ensures Slotted(path, Construct(other, value)) && Lookup(path, Construct(other, value)).None?
  {
    if path[0] == other[0] {
      assert path == [path[0]] + path[1..] && other == [other[0]] + other[1..];
      ConstructElsewhere(path[1..], other[1..], value);
    }
  }
}
