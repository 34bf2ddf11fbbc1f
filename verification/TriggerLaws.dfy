// What the log triggers guarantee over whole runs of updates.
module TriggerLaws {
  import opened Json
  import opened Wrappers
  import opened Triggers

  // One tag's updates in order; each stored value is the next update's `prev`.
  function Replay(trigger: LogTrigger, prev: Option<Value>, state: TriggerState, values: seq<Value>): (fires: seq<bool>)
    ensures |fires| == |values|
    decreases |values|
  {
    if values == [] then []
    else
      var e := EvaluateTrigger(trigger, prev, values[0], state);
      [e.fired] + Replay(trigger, Some(values[0]), e.state, values[1..])
  }

  predicate Sorted(ts: seq<real>) {
    forall i, j | 0 <= i < j < |ts| :: ts[i] <= ts[j]
  }

  // ---- `crossing_thresholds` sorts, and panics on an empty list ----

  function Insert(ts: seq<real>, t: real): seq<real> {
    if ts == [] || t < ts[0] then [t] + ts else [ts[0]] + Insert(ts[1..], t)
  }

  function CrossingThresholds(ts: seq<real>): Option<seq<real>> {
    if ts == [] then None else Some(SortThresholds(ts))
  }

  function SortThresholds(ts: seq<real>): seq<real> {
    if ts == [] then [] else Insert(SortThresholds(ts[..|ts| - 1]), ts[|ts| - 1])
  }

  lemma {:induction false} InsertKeepsContents(ts: seq<real>, t: real)
    ensures multiset(Insert(ts, t)) == multiset(ts) + multiset{t}
  {
    if ts != [] {
      assert ts == [ts[0]] + ts[1..];
      InsertKeepsContents(ts[1..], t);
    }
  }

  lemma {:induction false} InsertKeepsOrder(ts: seq<real>, t: real)
    requires Sorted(ts)
    ensures Sorted(Insert(ts, t))
  {
    if ts != [] && !(t < ts[0]) {
      InsertKeepsOrder(ts[1..], t);
      InsertKeepsContents(ts[1..], t);
      var rest := Insert(ts[1..], t);
      forall i | 0 <= i < |rest| ensures ts[0] <= rest[i] {
        assert rest[i] in multiset(rest);
      }
      assert Insert(ts, t) == [ts[0]] + rest;
    }
  }

  lemma {:induction false} ThresholdsAreSorted(ts: seq<real>)
    ensures CrossingThresholds(ts).None? <==> ts == []
    ensures ts != [] ==> Sorted(CrossingThresholds(ts).value) && multiset(CrossingThresholds(ts).value) == multiset(ts)
  {
    if ts != [] {
      var n := |ts| - 1;
      assert ts == ts[..n] + [ts[n]];
      if n > 0 {
        ThresholdsAreSorted(ts[..n]);
      }
      InsertKeepsOrder(SortThresholds(ts[..n]), ts[n]);
      InsertKeepsContents(SortThresholds(ts[..n]), ts[n]);
    }
  }

  // ---- a crossing trigger is one level on a ladder of thresholds ----

  // How many thresholds lie at or below `bound`, and how many strictly below.
  function Reach(ts: seq<real>, bound: real): (n: nat)
    ensures n <= |ts|
  {
    if ts != [] && ts[0] <= bound then 1 + Reach(ts[1..], bound) else 0
  }

  function Under(ts: seq<real>, bound: real): (n: nat)
    ensures n <= |ts|
  {
    if ts != [] && ts[0] < bound then 1 + Under(ts[1..], bound) else 0
  }

  lemma {:induction false} ReachCounts(ts: seq<real>, bound: real)
    requires Sorted(ts)
    ensures forall i | 0 <= i < |ts| :: ts[i] <= bound <==> i < Reach(ts, bound)
  {
    if ts != [] && ts[0] <= bound {
      ReachCounts(ts[1..], bound);
      assert forall i | 0 < i < |ts| :: ts[i] == ts[1..][i - 1];
    }
  }

  lemma {:induction false} UnderCounts(ts: seq<real>, bound: real)
    requires Sorted(ts)
    ensures forall i | 0 <= i < |ts| :: ts[i] < bound <==> i < Under(ts, bound)
  {
    if ts != [] && ts[0] < bound {
      UnderCounts(ts[1..], bound);
      assert forall i | 0 < i < |ts| :: ts[i] == ts[1..][i - 1];
    }
  }

  // The level moves only when `x` leaves the dead band around it.
  function NextLevel(ts: seq<real>, half: real, level: nat, x: real): nat {
    var up, down := Reach(ts, x - half), Under(ts, x + half);
    if level < up then up else if level > down then down else level
  }

  // Below the level every side is up, above it every side is down, and equal
  // thresholds are on the same side.
  predicate AtLevel(ts: seq<real>, sides: seq<bool>, level: nat) {
    |sides| == |ts| && level <= |ts| &&
    (forall i | 0 <= i < |ts| :: sides[i] <==> i < level) &&
    (0 < level < |ts| ==> ts[level - 1] < ts[level])
  }

  predicate LevelFires(direction: Direction, before: nat, after: nat) {
    match direction
    case Both => after != before
    case Rising => after > before
    case Falling => after < before
  }

  lemma LevelStep(ts: seq<real>, half: real, direction: Direction, sides: seq<bool>, level: nat, x: real)
    requires Sorted(ts) && half >= 0.0 && AtLevel(ts, sides, level)
    ensures AtLevel(ts, NextSides(ts, half, sides, x), NextLevel(ts, half, level, x))
    ensures AnyFires(direction, ts, half, sides, x) <==> LevelFires(direction, level, NextLevel(ts, half, level, x))
  {
    ReachCounts(ts, x - half);
    UnderCounts(ts, x + half);
    var up, down := Reach(ts, x - half), Under(ts, x + half);
    var next := NextLevel(ts, half, level, x);
    forall i | 0 <= i < |ts|
      ensures FlipsUp(ts[i], half, sides[i], x) <==> level <= i < up
      ensures FlipsDown(ts[i], half, sides[i], x) <==> down <= i < level
    {
    }
    if level < up {
      assert FlipsUp(ts[level], half, sides[level], x);
    } else if level > down {
      assert FlipsDown(ts[level - 1], half, sides[level - 1], x);
    }
  }

  function LevelReplay(ts: seq<real>, deadband: real, direction: Direction,
                       level: nat, values: seq<Value>): (fires: seq<bool>)
    ensures |fires| == |values|
    decreases |values|
  {
    if values == [] then []
    else if !values[0].Number? then [false] + LevelReplay(ts, deadband, direction, level, values[1..])
    else
      var next := NextLevel(ts, deadband / 2.0, level, AsReal(values[0].n));
      [LevelFires(direction, level, next)] + LevelReplay(ts, deadband, direction, next, values[1..])
  }

  function CrossingTrigger(direction: Direction, ts: seq<real>, deadband: real): LogTrigger {
    match direction
    case Both => Cross(ts, deadband)
    case Rising => Rise(ts, deadband)
    case Falling => Fall(ts, deadband)
  }

  // The vector of sides never holds more than one number's worth of state.
  lemma {:induction false} CrossingIsALevel(
    ts: seq<real>, deadband: real, direction: Direction, prev: Option<Value>,
    state: TriggerState, level: nat, values: seq<Value>)
    requires Sorted(ts) && deadband >= 0.0 && AtLevel(ts, SidesOf(ts, state), level)
    ensures Replay(CrossingTrigger(direction, ts, deadband), prev, state, values)
            == LevelReplay(ts, deadband, direction, level, values)
    decreases |values|
  {
    if values != [] {
      var v := values[0];
      var e := EvaluateTrigger(CrossingTrigger(direction, ts, deadband), prev, v, state);
      if v.Number? {
        LevelStep(ts, deadband / 2.0, direction, SidesOf(ts, state), level, AsReal(v.n));
        CrossingIsALevel(ts, deadband, direction, Some(v), e.state,
                         NextLevel(ts, deadband / 2.0, level, AsReal(v.n)), values[1..]);
      } else {
        CrossingIsALevel(ts, deadband, direction, Some(v), e.state, level, values[1..]);
      }
    }
  }

  // Over any run, Rise and Fall split the firings of Cross between them.
  lemma RiseAndFallPartitionCross(ts: seq<real>, deadband: real, values: seq<Value>, i: nat)
    requires Sorted(ts) && deadband >= 0.0 && i < |values|
    ensures var cross := Replay(Cross(ts, deadband), None, FRESH, values);
      var rise := Replay(Rise(ts, deadband), None, FRESH, values);
      var fall := Replay(Fall(ts, deadband), None, FRESH, values);
      (cross[i] <==> rise[i] || fall[i]) && !(rise[i] && fall[i])
  {
    CrossingIsALevel(ts, deadband, Both, None, FRESH, 0, values);
    CrossingIsALevel(ts, deadband, Rising, None, FRESH, 0, values);
    CrossingIsALevel(ts, deadband, Falling, None, FRESH, 0, values);
    LevelPartition(ts, deadband, 0, values, i);
  }

  lemma {:induction false} LevelPartition(ts: seq<real>, deadband: real, level: nat, values: seq<Value>, i: nat)
    requires i < |values|
    ensures var rise, fall := LevelReplay(ts, deadband, Rising, level, values),
        LevelReplay(ts, deadband, Falling, level, values);
      (LevelReplay(ts, deadband, Both, level, values)[i] <==> rise[i] || fall[i]) && !(rise[i] && fall[i])
    decreases |values|
  {
    if i > 0 {
      var next := if values[0].Number? then NextLevel(ts, deadband / 2.0, level, AsReal(values[0].n)) else level;
      LevelPartition(ts, deadband, next, values[1..], i - 1);
    }
  }

  // ---- repeating a value ----

  // A value on both edges of the band around the threshold, which takes a dead band of
  // zero (or less), flips the side on every update; `side` is the one before the first.
  predicate Chatters(direction: Direction, t: real, deadband: real, side: bool, x: real) {
    t + deadband / 2.0 <= x <= t - deadband / 2.0 &&
    match direction
    case Both => true
    case Rising => side
    case Falling => !side
  }

  /** A repeated number fires again exactly when it sits on both edges of some band, with
      the side before the first update such that the second flip goes the wanted way. */
  lemma RepeatFiresExactly(
    direction: Direction, ts: seq<real>, deadband: real, prev: Option<Value>, state: TriggerState, v: Value)
    requires v.Number? && |SidesOf(ts, state)| == |ts|
    ensures var trigger := CrossingTrigger(direction, ts, deadband);
      EvaluateTrigger(trigger, Some(v), v, EvaluateTrigger(trigger, prev, v, state).state).fired
      <==> exists i | 0 <= i < |ts| :: Chatters(direction, ts[i], deadband, SidesOf(ts, state)[i], AsReal(v.n))
  {
    var x, half := AsReal(v.n), deadband / 2.0;
    var sides := SidesOf(ts, state);
    var once := NextSides(ts, half, sides, x);
    forall i | 0 <= i < |ts|
      ensures SideFires(direction, ts[i], half, once[i], x) <==> Chatters(direction, ts[i], deadband, sides[i], x)
    {
    }
    if i :| 0 <= i < |ts| && Chatters(direction, ts[i], deadband, sides[i], x) {
      assert SideFires(direction, ts[i], half, once[i], x);
    }
    if AnyFires(direction, ts, half, once, x) {
      var i :| 0 <= i < |once| && i < |ts| && SideFires(direction, ts[i], half, once[i], x);
      assert Chatters(direction, ts[i], deadband, sides[i], x);
    }
  }

  // A dead band above zero rules that out for every trigger of the family.
  lemma RepeatNeverFires(
    direction: Direction, ts: seq<real>, deadband: real, prev: Option<Value>, state: TriggerState, v: Value)
    requires deadband > 0.0 && |SidesOf(ts, state)| == |ts|
    ensures var trigger := CrossingTrigger(direction, ts, deadband);
      !EvaluateTrigger(trigger, Some(v), v, EvaluateTrigger(trigger, prev, v, state).state).fired
  {
    if v.Number? {
      RepeatFiresExactly(direction, ts, deadband, prev, state, v);
    }
  }

  // Without a dead band, a value resting exactly on its threshold fires on every update.
  lemma ZeroDeadbandChatters(t: real, side: bool)
    ensures var v := Number(Float(t));
      var e := EvaluateTrigger(Cross([t], 0.0), Some(v), v, TriggerState(Some([side]), None));
      e.fired && e.state.sides == Some([!side])
  {
    assert SideFires(Both, [t][0], 0.0, [side][0], t);
    assert NextSides([t], 0.0, [side], t) == [!side];
  }

  // ---- how far a value moves between firings ----

  // The recorded sides after the first `n` updates of a run.
  function SidesAfter(ts: seq<real>, deadband: real, values: seq<Value>, n: nat): (sides: seq<bool>)
    requires n <= |values|
    ensures |sides| == |ts|
  {
    if n == 0 then seq(|ts|, _ => false)
    else
      var before := SidesAfter(ts, deadband, values, n - 1);
      if values[n - 1].Number? then NextSides(ts, deadband / 2.0, before, AsReal(values[n - 1].n)) else before
  }

  predicate RisesAt(ts: seq<real>, deadband: real, values: seq<Value>, n: nat, i: nat)
    requires n < |values| && i < |ts|
  {
    values[n].Number? && FlipsUp(ts[i], deadband / 2.0, SidesAfter(ts, deadband, values, n)[i], AsReal(values[n].n))
  }

  predicate FallsAt(ts: seq<real>, deadband: real, values: seq<Value>, n: nat, i: nat)
    requires n < |values| && i < |ts|
  {
    values[n].Number? && FlipsDown(ts[i], deadband / 2.0, SidesAfter(ts, deadband, values, n)[i], AsReal(values[n].n))
  }

  predicate FlipsAt(direction: Direction, ts: seq<real>, deadband: real, values: seq<Value>, n: nat, i: nat)
    requires n < |values| && i < |ts|
  {
    (RisesAt(ts, deadband, values, n, i) && direction != Falling)
    || (FallsAt(ts, deadband, values, n, i) && direction != Rising)
  }

  // The step view of a run agrees with `Replay`.
  lemma {:induction false} CrossingFiresExactly(
    direction: Direction, ts: seq<real>, deadband: real, values: seq<Value>, n: nat)
    requires n < |values|
    ensures Replay(CrossingTrigger(direction, ts, deadband), None, FRESH, values)[n]
            <==> exists i: nat | i < |ts| :: FlipsAt(direction, ts, deadband, values, n, i)
  {
    ReplayFrom(direction, ts, deadband, values, 0, None, FRESH, n);
  }

  lemma {:induction false} ReplayFrom(direction: Direction, ts: seq<real>, deadband: real, values: seq<Value>,
                                      from: nat, prev: Option<Value>, state: TriggerState, n: nat)
    requires from <= n < |values| && SidesOf(ts, state) == SidesAfter(ts, deadband, values, from)
    ensures Replay(CrossingTrigger(direction, ts, deadband), prev, state, values[from..])[n - from]
            <==> exists i: nat | i < |ts| :: FlipsAt(direction, ts, deadband, values, n, i)
    decreases n - from
  {
    var e := EvaluateTrigger(CrossingTrigger(direction, ts, deadband), prev, values[from], state);
    assert values[from..][1..] == values[from + 1..];
    if from < n {
      ReplayFrom(direction, ts, deadband, values, from + 1, Some(values[from]), e.state, n);
    } else if values[n].Number? {
      var sides, half, x := SidesOf(ts, state), deadband / 2.0, AsReal(values[n].n);
      forall i: nat | i < |ts|
        ensures SideFires(direction, ts[i], half, sides[i], x) <==> FlipsAt(direction, ts, deadband, values, n, i)
      {
      }
    }
  }

  // Between two rises over one threshold the value came down to its lower edge.
  lemma FallsBetweenRises(ts: seq<real>, deadband: real, values: seq<Value>, a: nat, b: nat, i: nat)
    requires a < b < |values| && i < |ts|
    requires RisesAt(ts, deadband, values, a, i) && RisesAt(ts, deadband, values, b, i)
    ensures exists n | a < n < b :: values[n].Number? && AsReal(values[n].n) <= ts[i] - deadband / 2.0
  {
    var n := a + 1;
    while n < b && SidesAfter(ts, deadband, values, n + 1)[i]
      invariant a < n <= b && SidesAfter(ts, deadband, values, n)[i]
    {
      n := n + 1;
    }
  }

  // Between two falls it rose to the upper edge.
  lemma RisesBetweenFalls(ts: seq<real>, deadband: real, values: seq<Value>, a: nat, b: nat, i: nat)
    requires a < b < |values| && i < |ts|
    requires FallsAt(ts, deadband, values, a, i) && FallsAt(ts, deadband, values, b, i)
    ensures exists n | a < n < b :: values[n].Number? && AsReal(values[n].n) >= ts[i] + deadband / 2.0
  {
    var n := a + 1;
    while n < b && !SidesAfter(ts, deadband, values, n + 1)[i]
      invariant a < n <= b && !SidesAfter(ts, deadband, values, n)[i]
    {
      n := n + 1;
    }
  }

  // The run last fired on update `m`, seen from update `n`.
  predicate LastFired(fires: seq<bool>, m: nat, n: nat) {
    m <= n < |fires| && fires[m] && forall k | m < k <= n :: !fires[k]
  }

  predicate IsDelta(trigger: LogTrigger) {
    (trigger.DeltaAmount? && trigger.amount > 0.0) || (trigger.DeltaPercent? && trigger.percent > 0.0)
  }

  // `x` is too close to `last` for the trigger to fire.
  predicate Near(trigger: LogTrigger, x: real, last: real)
    requires IsDelta(trigger)
  {
    match trigger
    case DeltaAmount(amount) => Abs(x - last) < amount
    case DeltaPercent(percent) => if last == 0.0 then x == 0.0 else Abs(x - last) / Abs(last) * 100.0 < percent
  }

  predicate NearUpdates(trigger: LogTrigger, values: seq<Value>, n: nat, m: nat)
    requires IsDelta(trigger) && m <= n < |values|
  {
    values[n].Number? && values[m].Number? && Near(trigger, AsReal(values[n].n), AsReal(values[m].n))
  }

  /** Over any run, every numeric update is near the value last fired on: within the amount,
      or within the percentage of its magnitude. */
  lemma DeltaTracksValue(trigger: LogTrigger, values: seq<Value>, n: nat)
    requires IsDelta(trigger) && n < |values| && values[n].Number?
    ensures var fires := Replay(trigger, None, FRESH, values);
      exists m: nat | m <= n && LastFired(fires, m, n) :: NearUpdates(trigger, values, n, m)
  {
    DeltaTracksFrom(trigger, None, FRESH, values, n);
  }

  // From any state the baseline may also be one fired on before the run.
  predicate TracksFrom(trigger: LogTrigger, state: TriggerState, fires: seq<bool>, values: seq<Value>, n: nat)
    requires IsDelta(trigger) && |fires| == |values| && n < |values| && values[n].Number?
  {
    (exists m: nat | m <= n && LastFired(fires, m, n) :: NearUpdates(trigger, values, n, m)) ||
    (state.lastLogged.Some? && (forall k | 0 <= k <= n :: !fires[k])
     && Near(trigger, AsReal(values[n].n), state.lastLogged.value))
  }

  lemma {:induction false} DeltaTracksFrom(
    trigger: LogTrigger, prev: Option<Value>, state: TriggerState, values: seq<Value>, n: nat)
    requires IsDelta(trigger) && n < |values| && values[n].Number?
    ensures TracksFrom(trigger, state, Replay(trigger, prev, state, values), values, n)
    decreases |values|
  {
    var e := EvaluateTrigger(trigger, prev, values[0], state);
    var fires := Replay(trigger, prev, state, values);
    var rest, k := values[1..], n - 1;
    var later := Replay(trigger, Some(values[0]), e.state, rest);
    assert fires == [e.fired] + later;
    if n == 0 {
      DeltaStep(trigger, prev, state, values[0]);
      assert e.fired ==> LastFired(fires, 0, 0);
    } else {
      DeltaTracksFrom(trigger, Some(values[0]), e.state, rest, k);
      if m: nat :| m <= k && LastFired(later, m, k) && NearUpdates(trigger, rest, k, m) {
        assert LastFired(fires, m + 1, n);
      } else if e.fired {
        assert LastFired(fires, 0, n);
      }
    }
  }

  // One update: a value fired on becomes the baseline, any other is near it.
  lemma DeltaStep(trigger: LogTrigger, prev: Option<Value>, state: TriggerState, v: Value)
    requires IsDelta(trigger) && v.Number?
    ensures var e := EvaluateTrigger(trigger, prev, v, state);
      && e.state.lastLogged.Some?
      && Near(trigger, AsReal(v.n), e.state.lastLogged.value)
      && (if e.fired then e.state.lastLogged == Some(AsReal(v.n)) else e.state == state)
  {
  }

  // ---- what the previous value decides ----

  // A trigger that cannot tell the default `d` from null as the previous value.
  predicate Blind(trigger: LogTrigger, d: Value) {
    match trigger
    case AnyChange => d == Null
    case Enter(x) => d == Null || (x != Null && !JsonEq(d, x))
    case Exit(x) => d == Null || (x != Null && !JsonEq(d, x))
    case _ => true
  }

  // The update on which a trigger that can tell gives itself away.
  function Telltale(trigger: LogTrigger): Value {
    match trigger
    case Enter(x) => x
    case Exit(x) => if x == Null then Bool(true) else Null
    case _ => Null
  }

  /** A trigger decides alike on every update after null and after the default exactly when
      it is blind to the default; otherwise its telltale update tells them apart. */
  lemma BlindExactly(trigger: LogTrigger, d: Value, state: TriggerState)
    ensures Blind(trigger, d) <==>
            forall v :: EvaluateTrigger(trigger, Some(Null), v, state) == EvaluateTrigger(trigger, Some(d), v, state)
    ensures !Blind(trigger, d) ==>
            EvaluateTrigger(trigger, Some(Null), Telltale(trigger), state).fired
            != EvaluateTrigger(trigger, Some(d), Telltale(trigger), state).fired
  {
    var v := Telltale(trigger);
    assert !Blind(trigger, d) ==>
      EvaluateTrigger(trigger, Some(Null), v, state) != EvaluateTrigger(trigger, Some(d), v, state);
  }

  // ---- changes, entries and exits ----

  // Equality of tag values: numbers by value, whatever their form, and finer than Python's.
  lemma JsonEqIsEquality(a: Value, b: Value, c: Value)
    ensures JsonEq(a, a) && (JsonEq(a, b) <==> JsonEq(b, a)) && (JsonEq(a, b) && JsonEq(b, c) ==> JsonEq(a, c))
    ensures a.Number? && b.Number? ==> (JsonEq(a, b) <==> NumericValue(a) == NumericValue(b))
    ensures !a.Number? ==> (JsonEq(a, b) <==> a == b)
    ensures JsonEq(a, b) ==> PyEq(a, b)
  {
    PyEqIsNormEquality(a, b);
  }

  // The value an update replaces in a run.
  function Before(prev: Option<Value>, values: seq<Value>, n: nat): Value
    requires n < |values|
  {
    if n == 0 then prev.GetOr(Null) else values[n - 1]
  }

  /** Over any run, AnyChange fires exactly when the value changes, Enter exactly when it
      becomes the target, and Exit exactly when it ceases to be. */
  lemma {:induction false} ChangesFireExactly(
    target: Value, prev: Option<Value>, state: TriggerState, values: seq<Value>, n: nat)
    requires n < |values|
    ensures var was, now := Before(prev, values, n), values[n];
      && (Replay(AnyChange, prev, state, values)[n] <==> !JsonEq(was, now))
      && (Replay(Enter(target), prev, state, values)[n] <==> !JsonEq(was, target) && JsonEq(now, target))
      && (Replay(Exit(target), prev, state, values)[n] <==> JsonEq(was, target) && !JsonEq(now, target))
    decreases n
  {
    if n == 0 {
      JsonEqIsEquality(prev.GetOr(Null), values[0], target);
      JsonEqIsEquality(values[0], prev.GetOr(Null), target);
      JsonEqIsEquality(prev.GetOr(Null), target, values[0]);
    } else {
      ChangesFireExactly(target, Some(values[0]), state, values[1..], n - 1);
    }
  }

  function Count(fires: seq<bool>): nat {
    if fires == [] then 0 else (if fires[0] then 1 else 0) + Count(fires[1..])
  }

  function Inside(v: Value, target: Value): int {
    if JsonEq(v, target) then 1 else 0
  }

  /** Entries and exits balance: over any run their numbers differ by where it starts and ends. */
  lemma {:induction false} EntriesBalanceExits(
    target: Value, prev: Option<Value>, state: TriggerState, values: seq<Value>)
    requires values != []
    ensures Count(Replay(Enter(target), prev, state, values)) - Count(Replay(Exit(target), prev, state, values))
            == Inside(values[|values| - 1], target) - Inside(prev.GetOr(Null), target)
    decreases |values|
  {
    ChangesFireExactly(target, prev, state, values, 0);
    var enter, exit := Replay(Enter(target), prev, state, values), Replay(Exit(target), prev, state, values);
    var enter', exit' := Replay(Enter(target), Some(values[0]), state, values[1..]),
                         Replay(Exit(target), Some(values[0]), state, values[1..]);
    assert enter == [enter[0]] + enter' && exit == [exit[0]] + exit';
    if |values| > 1 {
      EntriesBalanceExits(target, Some(values[0]), state, values[1..]);
    }
  }

  // The last of the first `n` updates that fired.
  function LastFire(fires: seq<bool>, n: nat): (m: Option<nat>)
    requires n <= |fires|
    ensures m.Some? ==> m.value < n && fires[m.value]
  {
    if n == 0 then None else if fires[n - 1] then Some(n - 1) else LastFire(fires, n - 1)
  }

  lemma {:induction false} LastFireShift(first: bool, later: seq<bool>, n: nat)
    requires 0 < n <= |later| + 1
    ensures LastFire([first] + later, n) ==
            match LastFire(later, n - 1)
            case Some(m) => Some(m + 1)
            case None => if first then Some(0) else None
  {
    if n > 1 {
      LastFireShift(first, later, n - 1);
    }
  }

  // The value last fired on before update `n`, or the baseline from before the run.
  function Baseline(fires: seq<bool>, values: seq<Value>, n: nat, start: Option<real>): Option<real>
    requires n <= |fires| == |values|
  {
    match LastFire(fires, n)
    case None => start
    case Some(m) => if values[m].Number? then Some(AsReal(values[m].n)) else start
  }

  lemma {:induction false} FiredIsNumeric(
    trigger: LogTrigger, prev: Option<Value>, state: TriggerState, values: seq<Value>, m: nat)
    requires IsDelta(trigger) && m < |values| && Replay(trigger, prev, state, values)[m]
    ensures values[m].Number?
    decreases m
  {
    if m > 0 {
      var e := EvaluateTrigger(trigger, prev, values[0], state);
      FiredIsNumeric(trigger, Some(values[0]), e.state, values[1..], m - 1);
    }
  }

  /** A delta trigger fires on the first numeric update of a run, and then exactly on those
      not near the value it last fired on. */
  lemma DeltaFiresExactly(trigger: LogTrigger, values: seq<Value>, n: nat)
    requires IsDelta(trigger) && n < |values|
    ensures var fires := Replay(trigger, None, FRESH, values);
      var base := Baseline(fires, values, n, None);
      fires[n] <==> values[n].Number? && (base.None? || !Near(trigger, AsReal(values[n].n), base.value))
  {
    DeltaFiresFrom(trigger, None, FRESH, values, n);
  }

  lemma {:induction false} DeltaFiresFrom(
    trigger: LogTrigger, prev: Option<Value>, state: TriggerState, values: seq<Value>, n: nat)
    requires IsDelta(trigger) && n < |values|
    ensures var fires := Replay(trigger, prev, state, values);
      var base := Baseline(fires, values, n, state.lastLogged);
      fires[n] <==> values[n].Number? && (base.None? || !Near(trigger, AsReal(values[n].n), base.value))
    decreases n
  {
    if n > 0 {
      var e, rest := EvaluateTrigger(trigger, prev, values[0], state), values[1..];
      var later := Replay(trigger, Some(values[0]), e.state, rest);
      DeltaFiresFrom(trigger, Some(values[0]), e.state, rest, n - 1);
      LastFireShift(e.fired, later, n);
      if LastFire(later, n - 1).Some? {
        FiredIsNumeric(trigger, Some(values[0]), e.state, rest, LastFire(later, n - 1).value);
      }
    }
  }
}
