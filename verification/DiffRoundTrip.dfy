// What a generated diff means: patching with it leads to the new value, and an
// empty one means that merging would change nothing.
module DiffRoundTrip {
  import opened Json
  import opened Diff

  // Null, or an object with nothing but blanks in it.
  predicate Blank(v: Value) {
    v.Null? || v == EMPTY
  }

  // The normal form two values share when only number representation, nulls
  // against missing keys and empty objects against missing keys tell them apart.
  function Tidy(v: Value): Value {
    if v.Obj? then Obj(map k | k in v.m && !Blank(Tidy(v.m[k])) :: Tidy(v.m[k])) else PyNorm(v)
  }

  // The one change a diff cannot express: a plain value replaced by `{}`.
  predicate Collapses(was: Value, now: Value)
    decreases now, 1
  {
    was.Obj? && now.Obj? && exists k | k in now.m :: CollapsesAt(was, now, k)
  }

  predicate CollapsesAt(was: Value, now: Value, k: string)
    requires was.Obj? && now.Obj?
    decreases now, 0
  {
    k in now.m && k in was.m &&
    if was.m[k].Obj? then Collapses(was.m[k], now.m[k]) else now.m[k] == EMPTY && !was.m[k].Null?
  }

  /** Patching with the generated diff reaches the new value, up to `Tidy`, exactly when
      the new value does not collapse a plain value. */
  lemma {:induction false} PatchReachesNew(was: Value, now: Value)
    ensures Tidy(ApplyDiff(was, GenerateDiff(was, now, true), true)) == Tidy(now) <==> !Collapses(was, now)
    decreases now, 1
  {
    if was.Obj? && now.Obj? {
      var r := ApplyDiff(was, GenerateDiff(was, now, true), true);
      forall k ensures AgreeAt(r, now, k) <==> !CollapsesAt(was, now, k) {
        PatchReachesNewAt(was, now, k);
      }
      TidyAgree(r, now);
    }
  }

  lemma {:induction false} PatchReachesNewAt(was: Value, now: Value, k: string)
    requires was.Obj? && now.Obj?
    ensures var r := ApplyDiff(was, GenerateDiff(was, now, true), true);
      r.Obj? && (AgreeAt(r, now, k) <==> !CollapsesAt(was, now, k))
    decreases now, 0
  {
    if k in now.m && now.m[k].Obj? {
      PatchReachesNew(Child(was, k), now.m[k]);
      ObjectPatched(was, now, k);
    } else {
      PlainPatched(was, now, k);
    }
  }

  lemma ObjectPatched(was: Value, now: Value, k: string)
    requires was.Obj? && now.Obj? && k in now.m && now.m[k].Obj?
    requires var c, v := Child(was, k), now.m[k];
      Tidy(ApplyDiff(c, GenerateDiff(c, v, true), true)) == Tidy(v) <==> !Collapses(c, v)
    ensures var r := ApplyDiff(was, GenerateDiff(was, now, true), true);
      r.Obj? && (AgreeAt(r, now, k) <==> !CollapsesAt(was, now, k))
  {
    PatchAt(was, now, k);
    var c, v := Child(was, k), now.m[k];
    if !c.Obj? {
      assert GenerateDiff(c, v, true) == v;
    } else if GenerateDiff(c, v, true) == EMPTY {
      assert ApplyDiff(c, EMPTY, true).m == c.m;
    }
  }

  lemma PlainPatched(was: Value, now: Value, k: string)
    requires was.Obj? && now.Obj? && (k in now.m ==> !now.m[k].Obj?)
    ensures var r := ApplyDiff(was, GenerateDiff(was, now, true), true);
      r.Obj? && AgreeAt(r, now, k) && !CollapsesAt(was, now, k)
  {
    PatchAt(was, now, k);
    if k in was.m && k in now.m {
      PyEqIsNormEquality(was.m[k], now.m[k]);
    }
  }

  // Null stands in for a missing key.
  function At(v: Value, k: string): Value
    requires v.Obj?
  {
    if k in v.m then v.m[k] else Null
  }

  predicate AgreeAt(a: Value, b: Value, k: string)
    requires a.Obj? && b.Obj?
  {
    var x, y := Tidy(At(a, k)), Tidy(At(b, k));
    x == y || (Blank(x) && Blank(y))
  }

  lemma TidyAgree(a: Value, b: Value)
    requires a.Obj? && b.Obj?
    ensures Tidy(a) == Tidy(b) <==> forall k :: AgreeAt(a, b, k)
  {
    if forall k :: AgreeAt(a, b, k) {
      forall k ensures k in Tidy(a).m <==> k in Tidy(b).m
        ensures k in Tidy(a).m ==> Tidy(a).m[k] == Tidy(b).m[k] {
        assert AgreeAt(a, b, k);
      }
      assert Tidy(a).m == Tidy(b).m;
    }
    if Tidy(a) == Tidy(b) {
      forall k ensures AgreeAt(a, b, k) {
        assert k in Tidy(a).m <==> k in Tidy(b).m;
      }
    }
  }

  // What a diff holds at one key.
  lemma GeneratedAt(was: Value, now: Value, k: string, doDelete: bool)
    requires was.Obj? && now.Obj?
    ensures var d := GenerateDiff(was, now, doDelete);
      && d.Obj?
      && (k !in now.m ==> (k in d.m <==> doDelete && k in was.m) && (k in d.m ==> d.m[k] == Null))
      && (k in now.m ==> (k in d.m <==> Differs(was, now, k, doDelete)))
      && (k in now.m && k in d.m ==>
            d.m[k] == if now.m[k].Obj? then GenerateDiff(Child(was, k), now.m[k], doDelete) else now.m[k])
  {
  }

  // What patching does to one key.
  lemma PatchAt(was: Value, now: Value, k: string)
    requires was.Obj? && now.Obj?
    ensures var r := ApplyDiff(was, GenerateDiff(was, now, true), true);
      && r.Obj?
      && (k !in now.m ==> k !in r.m)
      && (k in now.m && now.m[k].Obj? ==>
            var d := GenerateDiff(Child(was, k), now.m[k], true);
            if d == EMPTY then (k in r.m <==> k in was.m) && (k in r.m ==> r.m[k] == was.m[k])
            else k in r.m && r.m[k] == ApplyDiff(Child(was, k), d, true))
      && (k in now.m && !now.m[k].Obj? ==>
            if k in was.m && PyEq(was.m[k], now.m[k]) then k in r.m && r.m[k] == was.m[k]
            else if now.m[k].Null? then k !in r.m
            else k in r.m && r.m[k] == now.m[k])
  {
    GeneratedAt(was, now, k, true);
    ApplyAt(was, GenerateDiff(was, now, true), k, true);
  }

  lemma ApplyAt(data: Value, diff: Value, k: string, doDelete: bool)
    requires data.Obj? && diff.Obj?
    ensures var r := ApplyDiff(data, diff, doDelete);
      && r.Obj?
      && (k !in diff.m ==> (k in r.m <==> k in data.m) && (k in r.m ==> r.m[k] == data.m[k]))
      && (k in diff.m ==> (k in r.m <==> !(doDelete && diff.m[k].Null?)))
      && (k in diff.m && k in r.m ==>
            r.m[k] == if diff.m[k].Obj? then ApplyDiff(Child(data, k), diff.m[k], doDelete) else diff.m[k])
  {
  }

  // ---- the "did anything change" test of a buffered write ----

  // As `Tidy`, but a stored null is still told apart from a missing key.
  function Firm(v: Value): Value {
    if v.Obj? then Obj(map k | k in v.m && Firm(v.m[k]) != EMPTY :: Firm(v.m[k])) else PyNorm(v)
  }

  predicate Flattens(was: Value, now: Value)
    decreases now, 1
  {
    was.Obj? && now.Obj? && exists k | k in now.m :: FlattensAt(was, now, k)
  }

  predicate FlattensAt(was: Value, now: Value, k: string)
    requires was.Obj? && now.Obj?
    decreases now, 0
  {
    k in now.m && k in was.m &&
    if was.m[k].Obj? then Flattens(was.m[k], now.m[k]) else now.m[k] == EMPTY
  }

  lemma {:induction false} EmptyDiffMeansNoChange(was: Value, now: Value)
    requires was.Obj? && now.Obj?
    ensures GenerateDiff(was, now, false) != EMPTY ==> Firm(Merge(was, now)) != Firm(was)
    ensures GenerateDiff(was, now, false) == EMPTY ==>
              (Firm(Merge(was, now)) == Firm(was) <==> !Flattens(was, now))
    decreases now
  {
    var d, r := GenerateDiff(was, now, false), Merge(was, now);
    forall k
      ensures k in d.m ==> !FirmAgreeAt(r, was, k)
      ensures k !in d.m ==> (FirmAgreeAt(r, was, k) <==> !FlattensAt(was, now, k))
    {
      GeneratedAt(was, now, k, false);
      ApplyAt(was, now, k, false);
      if k in now.m {
        if now.m[k].Obj? && Child(was, k).Obj? {
          EmptyDiffMeansNoChange(Child(was, k), now.m[k]);
        } else if k in was.m {
          PyEqIsNormEquality(was.m[k], now.m[k]);
        }
      }
    }
    if d != EMPTY {
      var k :| k in d.m;
      assert !FirmAgreeAt(r, was, k);
    }
    FirmAgree(r, was);
  }

  predicate FirmAgreeAt(a: Value, b: Value, k: string)
    requires a.Obj? && b.Obj?
  {
    Firm(Child(a, k)) == Firm(Child(b, k))
  }

  lemma FirmAt(v: Value, k: string)
    requires v.Obj?
    ensures k in Firm(v).m <==> Firm(Child(v, k)) != EMPTY
    ensures k in Firm(v).m ==> Firm(v).m[k] == Firm(Child(v, k))
  {
    assert Firm(EMPTY).m == map[];
  }

  lemma FirmAgree(a: Value, b: Value)
    requires a.Obj? && b.Obj?
    ensures Firm(a) == Firm(b) <==> forall k :: FirmAgreeAt(a, b, k)
  {
    forall k
      ensures FirmAgreeAt(a, b, k) <==>
              (k in Firm(a).m <==> k in Firm(b).m) &&
              (k in Firm(a).m && k in Firm(b).m ==> Firm(a).m[k] == Firm(b).m[k])
    {
      FirmAt(a, k);
      FirmAt(b, k);
    }
    if forall k :: FirmAgreeAt(a, b, k) {
      assert forall k :: FirmAgreeAt(a, b, k);
      assert Firm(a).m == Firm(b).m;
    }
  }
}
