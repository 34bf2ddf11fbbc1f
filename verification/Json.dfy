// JSON values as serde_json keeps them: integers and floats are different
// numbers, and an object is a finite map (key order is not modelled).
module Json {
  import opened Wrappers

  datatype Num = Int(i: int) | Float(f: real)

  datatype Value =
    | Null
    | Bool(b: bool)
    | Number(n: Num)
    | Str(s: string)
    | Arr(a: seq<Value>)
    | Obj(m: map<string, Value>)

  const EMPTY := Obj(map[])

  // `Number::as_f64`, in exact arithmetic.
  function AsReal(n: Num): real {
    match n
    case Int(i) => i as real
    case Float(f) => f
  }

  // The object with the single entry `k: v`.
  function Single(k: string, v: Value): Value {
    Obj(map[k := v])
  }

  // `Value::get`.
  function Get(v: Value, k: string): Option<Value> {
    if v.Obj? && k in v.m then Some(v.m[k]) else None
  }

  // `is_empty_object` of tags/runtime.rs: anything that is not an object counts as empty.
  predicate IsEmptyObject(v: Value) {
    v.Obj? ==> v.m == map[]
  }

  // A number as Python sees it: booleans are 0 and 1.
  predicate Numeric(v: Value) {
    v.Bool? || v.Number?
  }

  function NumericValue(v: Value): real
    requires Numeric(v)
  {
    match v
    case Bool(b) => if b then 1.0 else 0.0
    case Number(n) => AsReal(n)
  }

  // `python_json_eq`: JSON equality with Python's numeric semantics.
  predicate PyEq(a: Value, b: Value) {
    match (a, b)
    case (Null, Null) => true
    case (Str(x), Str(y)) => x == y
    case (Arr(x), Arr(y)) => |x| == |y| && forall i | 0 <= i < |x| :: PyEq(x[i], y[i])
    case (Obj(x), Obj(y)) => |x| == |y| && forall k | k in x :: k in y && PyEq(x[k], y[k])
    case _ => Numeric(a) && Numeric(b) && NumericValue(a) == NumericValue(b)
  }

  // The normal form behind Python's equality: every number becomes a float.
  function PyNorm(v: Value): Value {
    match v
    case Arr(a) => Arr(seq(|a|, i requires 0 <= i < |a| => PyNorm(a[i])))
    case Obj(m) => Obj(map k | k in m :: PyNorm(m[k]))
    case Bool(_) => Number(Float(NumericValue(v)))
    case Number(_) => Number(Float(NumericValue(v)))
    case _ => v
  }

  lemma SameSizeSubset<T>(a: set<T>, b: set<T>)
    requires a <= b && |a| == |b|
    ensures a == b
  {
    assert |b - a| == |b| - |a|;
  }

  // Python equality is equality of normal forms, so it is an equivalence relation.
  lemma {:induction false} PyEqIsNormEquality(a: Value, b: Value)
    ensures PyEq(a, b) <==> PyNorm(a) == PyNorm(b)
  {
    match (a, b)
    case (Arr(x), Arr(y)) =>
      if |x| == |y| {
        forall i | 0 <= i < |x| ensures PyEq(x[i], y[i]) <==> PyNorm(a).a[i] == PyNorm(b).a[i] {
          PyEqIsNormEquality(x[i], y[i]);
        }
        assert PyEq(a, b) ==> PyNorm(a).a == PyNorm(b).a;
      } else {
        assert |PyNorm(a).a| != |PyNorm(b).a|;
      }
    case (Obj(x), Obj(y)) =>
      forall k | k in x && k in y ensures PyEq(x[k], y[k]) <==> PyNorm(a).m[k] == PyNorm(b).m[k] {
        PyEqIsNormEquality(x[k], y[k]);
      }
      assert PyNorm(a).m.Keys == x.Keys && PyNorm(b).m.Keys == y.Keys;
      assert |x| == |x.Keys| && |y| == |y.Keys|;
      if PyEq(a, b) {
        SameSizeSubset(x.Keys, y.Keys);
        assert PyNorm(a).m == PyNorm(b).m;
      }
      if PyNorm(a) == PyNorm(b) {
        assert x.Keys == y.Keys;
      }
    case _ =>
  }
}
