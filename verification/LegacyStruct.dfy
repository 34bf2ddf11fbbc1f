// Payloads for device agents that only speak `google.protobuf.Struct`
// (docker/legacy_struct.rs).
module LegacyStruct {
  import opened Json
  import opened Wrappers

  // `prost_types::Value`; a Struct is its fields.
  datatype Pb =
    | Unset
    | NullValue
    | BoolValue(b: bool)
    | NumberValue(f: real)
    | StringValue(s: string)
    | ListValue(values: seq<Pb>)
    | StructValue(fields: map<string, Pb>)

  const SAFE := 9_007_199_254_740_992

  // Integers become doubles by some rounding that is exact up to 2^53.
  ghost predicate ExactWhenSafe(toDouble: int -> real) {
    forall i | -SAFE <= i <= SAFE :: toDouble(i) == i as real
  }

  function ToDouble(n: Num, toDouble: int -> real): real {
    match n
    case Int(i) => toDouble(i)
    case Float(f) => f
  }

  function ValueToStruct(v: Value, toDouble: int -> real): map<string, Pb>
    decreases v, 0
  {
    if v.Obj? then map k | k in v.m :: ValueToPb(v.m[k], toDouble) else map[]
  }

  function ValueToPb(v: Value, toDouble: int -> real): Pb
    decreases v, 1
  {
    match v
    case Null => NullValue
    case Bool(b) => BoolValue(b)
    case Number(n) => NumberValue(ToDouble(n, toDouble))
    case Str(s) => StringValue(s)
    case Arr(a) => ListValue(seq(|a|, i requires 0 <= i < |a| => ValueToPb(a[i], toDouble)))
    case Obj(_) => StructValue(ValueToStruct(v, toDouble))
  }

  predicate Whole(f: real) {
    f.Floor as real == f
  }

  predicate Safe(f: real) {
    -(SAFE as real) <= f <= SAFE as real
  }

  // Whole doubles within the safe range come back as integers.
  function FromDouble(f: real): Num {
    if Whole(f) && Safe(f) then Int(f.Floor) else Float(f)
  }

  function StructToValue(fields: map<string, Pb>): Value {
    Obj(map k | k in fields :: PbToValue(fields[k]))
  }

  function PbToValue(p: Pb): Value {
    match p
    case Unset => Null
    case NullValue => Null
    case BoolValue(b) => Bool(b)
    case NumberValue(f) => Number(FromDouble(f))
    case StringValue(s) => Str(s)
    case ListValue(values) => Arr(seq(|values|, i requires 0 <= i < |values| => PbToValue(values[i])))
    case StructValue(fields) => Obj(map k | k in fields :: PbToValue(fields[k]))
  }

  function Carried(v: Value, toDouble: int -> real): Value {
    PbToValue(ValueToPb(v, toDouble))
  }

  lemma CarriedObject(v: Value, toDouble: int -> real)
    requires v.Obj?
    ensures var c := Carried(v, toDouble);
      c.Obj? && c.m.Keys == v.m.Keys && forall k | k in v.m :: c.m[k] == Carried(v.m[k], toDouble)
  {
    var fields := ValueToStruct(v, toDouble);
    assert ValueToPb(v, toDouble) == StructValue(fields);
    assert fields.Keys == v.m.Keys && forall k | k in v.m :: fields[k] == ValueToPb(v.m[k], toDouble);
  }

  // Each kind of value has its own on the wire; a wire value of no kind reads as null, and
  // so do the fields of a Struct.
  lemma KindsAreKept(v: Value, toDouble: int -> real)
    ensures var p := ValueToPb(v, toDouble);
      && (v.Null? <==> p.NullValue?) && (v.Bool? <==> p.BoolValue?)
      && (v.Number? <==> p.NumberValue?) && (v.Str? <==> p.StringValue?)
      && (v.Arr? <==> p.ListValue?) && (v.Obj? <==> p.StructValue?)
    ensures PbToValue(Unset) == Null && StructToValue(map["k" := Unset]) == Single("k", Null)
    ensures !v.Obj? ==> ValueToStruct(v, toDouble) == map[]
  {
    assert StructToValue(map["k" := Unset]).m == map["k" := Null];
  }

  // Integers within 2^53, and doubles that do not look like one.
  predicate Carries(v: Value) {
    match v
    case Number(Int(i)) => -SAFE <= i <= SAFE
    case Number(Float(f)) => !(Whole(f) && Safe(f))
    case Arr(a) => forall i | 0 <= i < |a| :: Carries(a[i])
    case Obj(m) => forall k | k in m :: Carries(m[k])
    case _ => true
  }

  lemma {:induction false} CarriedExactly(v: Value, toDouble: int -> real)
    requires ExactWhenSafe(toDouble)
    ensures Carried(v, toDouble) == v <==> Carries(v)
  {
    var c := Carried(v, toDouble);
    match v {
      case Arr(a) =>
        forall i | 0 <= i < |a| ensures c.a[i] == a[i] <==> Carries(a[i]) {
          CarriedExactly(a[i], toDouble);
        }
        if Carries(v) {
          assert c.a == a;
        }
      case Obj(m) =>
        CarriedObject(v, toDouble);
        forall k | k in m ensures c.m[k] == m[k] <==> Carries(m[k]) {
          CarriedExactly(m[k], toDouble);
        }
        if Carries(v) {
          assert c.m == m;
        }
      case _ =>
    }
  }

  lemma {:induction false} CarriedCarries(v: Value, toDouble: int -> real)
    requires ExactWhenSafe(toDouble)
    ensures Carries(Carried(v, toDouble))
  {
    var c := Carried(v, toDouble);
    match v
    case Arr(a) =>
      forall i | 0 <= i < |a| ensures Carries(c.a[i]) {
        CarriedCarries(a[i], toDouble);
      }
    case Obj(m) =>
      CarriedObject(v, toDouble);
      forall k | k in c.m ensures Carries(c.m[k]) {
        CarriedCarries(m[k], toDouble);
      }
    case _ =>
  }

  /** The round trip through a Struct is the identity exactly on objects whose integers
      are within 2^53 and whose doubles are not whole numbers within it. */
  lemma RoundTripExactly(v: Value, toDouble: int -> real)
    requires v.Obj? && ExactWhenSafe(toDouble)
    ensures StructToValue(ValueToStruct(v, toDouble)) == v <==> Carries(v)
  {
    CarriedExactly(v, toDouble);
  }

  /** A second round trip changes nothing more, on every value. */
  lemma RoundTripIdempotent(v: Value, toDouble: int -> real)
    requires ExactWhenSafe(toDouble)
    ensures var once := StructToValue(ValueToStruct(v, toDouble));
      StructToValue(ValueToStruct(once, toDouble)) == once
  {
    var once := StructToValue(ValueToStruct(v, toDouble));
    if v.Obj? {
      CarriedCarries(v, toDouble);
      assert once == Carried(v, toDouble);
    }
    CarriedExactly(once, toDouble);
  }

  // ---- which encoding the agent speaks ----

  datatype Mode = Unknown | JsonMode | Legacy

  // A response: whether `data_json` is filled, and the Struct if one came.
  datatype Response = Response(dataJson: string, data: Option<map<string, Pb>>)

  function Observed(mode: Mode, r: Response): Mode {
    if r.dataJson != "" then JsonMode
    else if r.data.Some? && r.data.value != map[] then Legacy
    else mode
  }

  function ObservedAll(mode: Mode, rs: seq<Response>): Mode
    decreases |rs|
  {
    if rs == [] then mode else ObservedAll(Observed(mode, rs[0]), rs[1..])
  }

  // `send_struct`: until the agent is known to speak JSON.
  predicate Sends(mode: Mode) {
    mode != JsonMode
  }

  class WireMode {
    var mode: Mode

    constructor ()
      ensures mode == Unknown
    {
      mode := Unknown;
    }

    method SendStruct() returns (send: bool)
      ensures send == Sends(mode)
    {
      send := mode != JsonMode;
    }

    method Observe(r: Response)
      modifies this
      ensures mode == Observed(old(mode), r)
    {
      if r.dataJson != "" {
        mode := JsonMode;
      } else if r.data.Some? && r.data.value != map[] {
        mode := Legacy;
      }
    }
  }

  // The last response that says anything, from the end.
  function LastInformative(rs: seq<Response>): Option<Response> {
    if rs == [] then None
    else
      var last := rs[|rs| - 1];
      if last.dataJson != "" || (last.data.Some? && last.data.value != map[]) then Some(last)
      else LastInformative(rs[..|rs| - 1])
  }

  /** Structs stop being sent exactly while the last informative response carried JSON. */
  lemma {:induction false} StructsStopExactly(rs: seq<Response>)
    ensures !Sends(ObservedAll(Unknown, rs)) <==>
            LastInformative(rs).Some? && LastInformative(rs).value.dataJson != ""
  {
    ObservedIsLast(Unknown, rs);
  }

  lemma {:induction false} ObservedIsLast(mode: Mode, rs: seq<Response>)
    ensures ObservedAll(mode, rs) ==
            match LastInformative(rs)
            case None => mode
            case Some(r) => if r.dataJson != "" then JsonMode else Legacy
  {
    if rs != [] {
      assert rs == rs[..|rs| - 1] + [rs[|rs| - 1]];
      ObservedAppend(mode, rs[..|rs| - 1], rs[|rs| - 1]);
      ObservedIsLast(mode, rs[..|rs| - 1]);
    }
  }

  lemma {:induction false} ObservedAppend(mode: Mode, rs: seq<Response>, r: Response)
    ensures ObservedAll(mode, rs + [r]) == Observed(ObservedAll(mode, rs), r)
    decreases |rs|
  {
    if rs != [] {
      assert (rs + [r])[1..] == rs[1..] + [r];
      ObservedAppend(Observed(mode, rs[0]), rs[1..], r);
    }
  }
}
