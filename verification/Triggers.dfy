// Log triggers (tags/triggers.rs): which tag writes are promoted to logged points.
module Triggers {
  import opened Json
  import opened Wrappers

  datatype Direction = Both | Rising | Falling

  datatype LogTrigger =
    | Cross(thresholds: seq<real>, deadband: real)
    | Rise(thresholds: seq<real>, deadband: real)
    | Fall(thresholds: seq<real>, deadband: real)
    | DeltaAmount(amount: real)
    | DeltaPercent(percent: real)
    | AnyChange
    | Enter(target: Value)
    | Exit(target: Value)

  // `sides[i]`: the value counts as above thresholds[i]. None until first evaluated.
  datatype TriggerState = TriggerState(sides: Option<seq<bool>>, lastLogged: Option<real>)

  const FRESH := TriggerState(None, None)

  datatype Evaluation = Evaluation(fired: bool, state: TriggerState)

  // `json_eq`: numbers by value, everything else structurally.
  predicate JsonEq(a: Value, b: Value) {
    if a.Number? && b.Number? then AsReal(a.n) == AsReal(b.n) else a == b
  }

  // ---- threshold crossings ----

  predicate FlipsUp(t: real, half: real, side: bool, x: real) {
    x >= t + half && !side
  }

  predicate FlipsDown(t: real, half: real, side: bool, x: real) {
    !FlipsUp(t, half, side, x) && x <= t - half && side
  }

  function NextSide(t: real, half: real, side: bool, x: real): bool {
    FlipsUp(t, half, side, x) || (side && !FlipsDown(t, half, side, x))
  }

  // Sides and thresholds are zipped; sides without a threshold stay as they are.
  function NextSides(ts: seq<real>, half: real, sides: seq<bool>, x: real): seq<bool> {
    seq(|sides|, i requires 0 <= i < |sides| => if i < |ts| then NextSide(ts[i], half, sides[i], x) else sides[i])
  }

  predicate SideFires(direction: Direction, t: real, half: real, side: bool, x: real) {
    (FlipsUp(t, half, side, x) && direction != Falling) || (FlipsDown(t, half, side, x) && direction != Rising)
  }

  predicate AnyFires(direction: Direction, ts: seq<real>, half: real, sides: seq<bool>, x: real) {
    exists i | 0 <= i < |sides| && i < |ts| :: SideFires(direction, ts[i], half, sides[i], x)
  }

  function SidesOf(ts: seq<real>, state: TriggerState): seq<bool> {
    state.sides.GetOr(seq(|ts|, _ => false))
  }

  function Crossing(ts: seq<real>, deadband: real, direction: Direction, value: Value, state: TriggerState)
    : Evaluation
  {
    if !value.Number? then Evaluation(false, state)
    else
      var x, half, sides := AsReal(value.n), deadband / 2.0, SidesOf(ts, state);
      Evaluation(AnyFires(direction, ts, half, sides, x), state.(sides := Some(NextSides(ts, half, sides, x))))
  }

  method EvaluateCrossing(ts: seq<real>, deadband: real, direction: Direction, value: Value, state: TriggerState)
    returns (fired: bool, after: TriggerState)
    ensures Evaluation(fired, after) == Crossing(ts, deadband, direction, value, state)
  {
    if !value.Number? {
      return false, state;
    }
    var x := AsReal(value.n);
    var sides := state.sides.GetOr(seq(|ts|, _ => false));
    ghost var before := sides;
    var half := deadband / 2.0;
    fired := false;
    var i := 0;
    while i < |sides| && i < |ts|
      invariant 0 <= i <= |sides| == |before|
      invariant forall j | 0 <= j < |sides| ::
        sides[j] == if j < i then NextSides(ts, half, before, x)[j] else before[j]
      invariant fired <==> exists j | 0 <= j < i && j < |ts| :: SideFires(direction, ts[j], half, before[j], x)
    {
      if x >= ts[i] + half && !sides[i] {
        sides := sides[i := true];
        fired := fired || direction != Falling;
      } else if x <= ts[i] - half && sides[i] {
        sides := sides[i := false];
        fired := fired || direction != Rising;
      }
      i := i + 1;
    }
    assert sides == NextSides(ts, half, before, x);
    after := state.(sides := Some(sides));
  }

  // ---- deltas ----

  function Abs(x: real): real {
    if x < 0.0 then -x else x
  }

  predicate DeltaFires(trigger: LogTrigger, diff: real, last: real) {
    match trigger
    case DeltaAmount(amount) => diff >= amount
    case DeltaPercent(percent) => if last == 0.0 then diff != 0.0 else diff / Abs(last) * 100.0 >= percent
    case _ => false
  }

  function Delta(trigger: LogTrigger, value: Value, state: TriggerState): Evaluation {
    if !value.Number? then Evaluation(false, state)
    else
      var x := AsReal(value.n);
      if state.lastLogged.None? || DeltaFires(trigger, Abs(x - state.lastLogged.value), state.lastLogged.value)
      then Evaluation(true, state.(lastLogged := Some(x)))
      else Evaluation(false, state)
  }

  // ---- one update ----

  /** `LogTrigger::evaluate`; `prev` is the stored value or the declared default. */
  function EvaluateTrigger(trigger: LogTrigger, prev: Option<Value>, value: Value, state: TriggerState): Evaluation {
    var was := prev.GetOr(Null);
    match trigger
    case Cross(ts, d) => Crossing(ts, d, Both, value, state)
    case Rise(ts, d) => Crossing(ts, d, Rising, value, state)
    case Fall(ts, d) => Crossing(ts, d, Falling, value, state)
    case DeltaAmount(_) => Delta(trigger, value, state)
    case DeltaPercent(_) => Delta(trigger, value, state)
    case AnyChange => Evaluation(!JsonEq(was, value), state)
    case Enter(target) => Evaluation(!JsonEq(was, value) && JsonEq(value, target), state)
    case Exit(target) => Evaluation(!JsonEq(was, value) && JsonEq(was, target), state)
  }

  // ---- every trigger of one tag ----

  datatype SetState = SetState(triggers: seq<LogTrigger>, states: seq<TriggerState>, default_: Option<Value>)

  function Fallback(current: Option<Value>, default_: Option<Value>): Option<Value> {
    if current.Some? then current else default_
  }

  predicate SetFires(set_: SetState, current: Option<Value>, value: Value)
    requires |set_.states| == |set_.triggers|
  {
    var prev := Fallback(current, set_.default_);
    exists i | 0 <= i < |set_.triggers| :: EvaluateTrigger(set_.triggers[i], prev, value, set_.states[i]).fired
  }

  function SetAfter(set_: SetState, current: Option<Value>, value: Value): (after: SetState)
    requires |set_.states| == |set_.triggers|
    ensures |after.states| == |after.triggers|
  {
    var prev := Fallback(current, set_.default_);
    set_.(states := seq(|set_.states|, i requires 0 <= i < |set_.states| =>
      EvaluateTrigger(set_.triggers[i], prev, value, set_.states[i]).state))
  }

  // Every trigger runs, whether or not an earlier one fired.
  method EvaluateSet(set_: SetState, current: Option<Value>, value: Value) returns (fired: bool, after: SetState)
    requires |set_.states| == |set_.triggers|
    ensures fired == SetFires(set_, current, value) && after == SetAfter(set_, current, value)
  {
    var prev := Fallback(current, set_.default_);
    var states := set_.states;
    fired := false;
    for i := 0 to |set_.triggers|
      invariant |states| == |set_.states|
      invariant forall j | 0 <= j < |states| ::
        states[j] == if j < i then EvaluateTrigger(set_.triggers[j], prev, value, set_.states[j]).state
          else set_.states[j]
      invariant fired <==> exists j | 0 <= j < i :: EvaluateTrigger(set_.triggers[j], prev, value, set_.states[j]).fired
    {
      var result, next := EvaluateOne(set_.triggers[i], prev, value, states[i]);
      states := states[i := next];
      fired := fired || result;
    }
    after := set_.(states := states);
    assert states == SetAfter(set_, current, value).states;
  }

  method EvaluateOne(trigger: LogTrigger, prev: Option<Value>, value: Value, state: TriggerState)
    returns (fired: bool, after: TriggerState)
    ensures Evaluation(fired, after) == EvaluateTrigger(trigger, prev, value, state)
  {
    match trigger
    case Cross(ts, d) => fired, after := EvaluateCrossing(ts, d, Both, value, state);
    case Rise(ts, d) => fired, after := EvaluateCrossing(ts, d, Rising, value, state);
    case Fall(ts, d) => fired, after := EvaluateCrossing(ts, d, Falling, value, state);
    case _ =>
      var result := EvaluateTrigger(trigger, prev, value, state);
      fired, after := result.fired, result.state;
  }
}
