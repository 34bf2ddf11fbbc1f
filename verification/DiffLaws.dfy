// Laws of the diff/merge engine.
module DiffLaws {
  import opened Json
  import opened Diff

  // ---- merging ----

  lemma {:induction false} MergeOntoEmpty(v: Value)
    requires v.Obj?
    ensures Merge(EMPTY, v) == v
  {
    forall k | k in v.m ensures Merge(EMPTY, v).m[k] == v.m[k] {
      if v.m[k].Obj? {
        MergeOntoEmpty(v.m[k]);
      }
    }
    assert Merge(EMPTY, v).m == v.m;
  }

  // A merge, key by key, with a missing key told apart from an empty object.
  lemma MergeAt(a: Value, b: Value, k: string)
    requires a.Obj? && b.Obj?
    ensures Merge(a, b).Obj?
    ensures k in Merge(a, b).m <==> k in a.m || k in b.m
    ensures k in a.m && k !in b.m ==> Merge(a, b).m[k] == a.m[k]
    ensures k !in a.m && k in b.m ==> Merge(a, b).m[k] == b.m[k]
    ensures k in a.m && k in b.m ==> Merge(a, b).m[k] == Merge(a.m[k], b.m[k])
  {
    if k in b.m && k !in a.m && b.m[k].Obj? {
      MergeOntoEmpty(b.m[k]);
    }
  }

  lemma {:induction false} MergeIdempotent(a: Value)
    ensures Merge(a, a) == a
  {
    if a.Obj? {
      forall k | k in a.m ensures Merge(a, a).m[k] == a.m[k] {
        MergeAt(a, a, k);
        MergeIdempotent(a.m[k]);
      }
      assert Merge(a, a).m == a.m;
    }
  }

  // Everything `a` holds lies on a path that `c` also writes.
  predicate Covered(a: Value, c: Value) {
    a.Obj? && c.Obj? ==> forall k | k in a.m :: k in c.m && Covered(a.m[k], c.m[k])
  }

  lemma {:induction false} CoveredIsOverwritten(a: Value, c: Value)
    ensures Merge(a, c) == c <==> Covered(a, c)
  {
    if a.Obj? && c.Obj? {
      forall k ensures k in a.m && k in c.m ==> (Merge(a.m[k], c.m[k]) == c.m[k] <==> Covered(a.m[k], c.m[k])) {
        if k in a.m && k in c.m {
          CoveredIsOverwritten(a.m[k], c.m[k]);
        }
      }
      forall k ensures k in Merge(a, c).m <==> k in a.m || k in c.m {
        MergeAt(a, c, k);
      }
      forall k | k in c.m ensures Merge(a, c).m[k] == (if k in a.m then Merge(a.m[k], c.m[k]) else c.m[k]) {
        MergeAt(a, c, k);
      }
      if Covered(a, c) {
        assert Merge(a, c).m == c.m;
      }
    }
  }

  // Two layers below a value leave it as it is exactly when it covers both.
  lemma {:induction false} CoversBothExactly(c: Value, p: Value, v: Value)
    ensures Merge(c, Merge(p, v)) == v <==> Covered(p, v) && Covered(c, v)
    decreases v, 1
  {
    CoveredIsOverwritten(p, v);
    CoveredIsOverwritten(c, v);
    if Merge(c, Merge(p, v)) == v && c.Obj? && p.Obj? && v.Obj? {
      forall k ensures k in p.m ==> k in v.m && Covered(p.m[k], v.m[k])
        ensures k in c.m ==> k in v.m && Covered(c.m[k], v.m[k])
      {
        CoversBothAt(c, p, v, k);
      }
    }
  }

  lemma {:induction false} CoversBothAt(c: Value, p: Value, v: Value, k: string)
    requires c.Obj? && p.Obj? && v.Obj? && Merge(c, Merge(p, v)) == v
    ensures k in p.m ==> k in v.m && Covered(p.m[k], v.m[k])
    ensures k in c.m ==> k in v.m && Covered(c.m[k], v.m[k])
    decreases v, 0
  {
    MergeAt(p, v, k);
    MergeAt(c, Merge(p, v), k);
    if k in v.m {
      CoveredIsOverwritten(if k in p.m then p.m[k] else v.m[k], v.m[k]);
      if k in c.m && k in p.m {
        CoversBothExactly(c.m[k], p.m[k], v.m[k]);
      } else if k in c.m {
        CoveredIsOverwritten(c.m[k], v.m[k]);
      }
    }
  }

  // Regrouping two merges is harmless unless the middle value is a plain value
  // standing between two objects, and the first object has something the last
  // one does not overwrite.
  predicate Associates(a: Value, b: Value, c: Value) {
    a.Obj? && c.Obj? ==>
      if b.Obj? then forall k | k in a.m && k in b.m && k in c.m :: Associates(a.m[k], b.m[k], c.m[k])
      else Covered(a, c)
  }

  lemma {:induction false} AssociativityIsExact(a: Value, b: Value, c: Value)
    ensures Merge(Merge(a, b), c) == Merge(a, Merge(b, c)) <==> Associates(a, b, c)
  {
    if a.Obj? && c.Obj? {
      if b.Obj? {
        var l, r := Merge(Merge(a, b), c), Merge(a, Merge(b, c));
        forall k
          ensures k in l.m <==> k in r.m
          ensures k in l.m ==> (l.m[k] == r.m[k] <==>
                    (k in a.m && k in b.m && k in c.m ==> Associates(a.m[k], b.m[k], c.m[k])))
        {
          MergeAt(a, b, k); MergeAt(b, c, k);
          MergeAt(Merge(a, b), c, k); MergeAt(a, Merge(b, c), k);
          if k in a.m && k in b.m && k in c.m {
            AssociativityIsExact(a.m[k], b.m[k], c.m[k]);
          }
        }
        assert l.m.Keys == r.m.Keys;
        if Associates(a, b, c) {
          assert l.m == r.m;
        }
      } else {
        CoveredIsOverwritten(a, c);
      }
    }
  }

  // The smallest clash: regrouping resurrects `b`.
  lemma MergeIsNotAssociative()
    ensures var one := Number(Int(1));
      var a, b, c := Single("a", Single("b", one)), Single("a", one), Single("a", Single("c", one));
      && Merge(Merge(a, b), c) == c
      && Merge(a, Merge(b, c)) == Single("a", Obj(map["b" := one, "c" := one]))
  {
    var one := Number(Int(1));
    var a, b, c := Single("a", Single("b", one)), Single("a", one), Single("a", Single("c", one));
    MergeAt(a, b, "a"); MergeAt(b, c, "a");
    MergeAt(Merge(a, b), c, "a"); MergeAt(a, Merge(b, c), "a");
    var both := Merge(Single("b", one), Single("c", one));
    MergeAt(Single("b", one), Single("c", one), "b"); MergeAt(Single("b", one), Single("c", one), "c");
    assert both.m == map["b" := one, "c" := one];
    assert Merge(Merge(a, b), c).m == c.m;
    assert Merge(a, Merge(b, c)).m == map["a" := both];
  }

  // ---- null and missing ----

  // The value with every null entry of every object dropped: what a reader that
  // takes a missing key as null can tell apart.
  function Denull(v: Value): Value {
    if v.Obj? then Obj(map k | k in v.m && !v.m[k].Null? :: Denull(v.m[k])) else v
  }

  // Publishing a diff (nulls delete) and overlaying it (nulls stay) read the same.
  lemma {:induction false} DeletingReadsAsNull(data: Value, diff: Value)
    ensures Denull(ApplyDiff(data, diff, true)) == Denull(Merge(data, diff))
    decreases diff
  {
    if data.Obj? && diff.Obj? {
      var l, r := ApplyDiff(data, diff, true), Merge(data, diff);
      forall k | k in diff.m && diff.m[k].Obj?
        ensures Denull(l.m[k]) == Denull(r.m[k])
      {
        DeletingReadsAsNull(Child(data, k), diff.m[k]);
      }
      assert Denull(l).m == Denull(r).m;
    }
  }

  lemma {:induction false} DenullMerge(a: Value, w: Value)
    ensures Denull(Merge(a, w)) == Denull(Merge(Denull(a), w))
    decreases w
  {
    if a.Obj? && w.Obj? {
      var l, r := Merge(a, w), Merge(Denull(a), w);
      forall k
        ensures k in Denull(l).m <==> k in Denull(r).m
        ensures k in Denull(l).m ==> Denull(l).m[k] == Denull(r).m[k]
      {
        MergeAt(a, w, k);
        MergeAt(Denull(a), w, k);
        if k in w.m && k in a.m && !a.m[k].Null? {
          DenullMerge(a.m[k], w.m[k]);
        }
        if k in a.m && k !in w.m {
          DenullIdempotent(a.m[k]);
        }
      }
      assert Denull(l).m == Denull(r).m;
    } else {
      DenullIdempotent(a);
    }
  }

  lemma {:induction false} DenullIdempotent(v: Value)
    ensures Denull(Denull(v)) == Denull(v)
  {
    if v.Obj? {
      forall k | k in v.m && !v.m[k].Null? ensures Denull(Denull(v.m[k])) == Denull(v.m[k]) {
        DenullIdempotent(v.m[k]);
      }
      assert Denull(Denull(v)).m == Denull(v).m;
    }
  }

  // Overlaying a write after publishing it restores exactly what overlaying alone gives.
  lemma {:induction false} OverlayAfterPublish(data: Value, diff: Value)
    ensures Merge(ApplyDiff(data, diff, true), diff) == Merge(data, diff)
    decreases diff
  {
    if data.Obj? && diff.Obj? {
      var p := ApplyDiff(data, diff, true);
      var l, r := Merge(p, diff), Merge(data, diff);
      forall k
        ensures k in l.m <==> k in r.m
        ensures k in l.m ==> l.m[k] == r.m[k]
      {
        MergeAt(p, diff, k);
        MergeAt(data, diff, k);
        if k in diff.m && diff.m[k].Obj? {
          OverlayAfterPublish(Child(data, k), diff.m[k]);
          if k !in data.m {
            MergeOntoEmpty(diff.m[k]);
          }
        }
      }
      assert l.m == r.m;
    } else {
      MergeIdempotent(diff);
    }
  }
}
