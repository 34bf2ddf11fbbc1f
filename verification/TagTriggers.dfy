// The runtime runs its triggers as the trigger laws say: in any run the decisions on a
// tag's sets are each trigger's own, replayed over the values set, and a set is promoted
// to the log exactly when one of them fires.
module TagTriggers {
  import opened Json
  import opened Wrappers
  import opened KeyPaths
  import opened Triggers
  import opened TriggerLaws
  import opened TagsRuntime
  import opened TagRuns
  import opened TagReads
  import opened TagCommits
  import opened TagPlacement

  // What a set of the tag finds and what it sets.
  datatype Update = Update(held: Option<Value>, value: Value)

  predicate SetsTag(op: Op, path: seq<string>) {
    op.SetOne? && op.path == path
  }

  function Updates(s: State, ops: seq<Op>, path: seq<string>, interval: int): seq<Update>
    requires WellFormed(s)
    decreases |ops|
  {
    if ops == [] then []
    else
      (if SetsTag(ops[0], path) then [Update(Lookup(path, View(s)), ops[0].value)] else [])
      + Updates(Step(s, ops[0], interval), ops[1..], path, interval)
  }

  function Values(updates: seq<Update>): (values: seq<Value>)
    ensures |values| == |updates|
  {
    seq(|updates|, i requires 0 <= i < |updates| => updates[i].value)
  }

  // One trigger run over the updates, each against what it found or else the default.
  function Trace(trigger: LogTrigger, default_: Option<Value>, state: TriggerState, updates: seq<Update>)
    : (fires: seq<bool>)
    ensures |fires| == |updates|
    decreases |updates|
  {
    if updates == [] then []
    else
      var held := updates[0].held;
      var e := EvaluateTrigger(trigger, if held.Some? then held else default_, updates[0].value, state);
      [e.fired] + Trace(trigger, default_, e.state, updates[1..])
  }

  /** A set is promoted exactly when some trigger of its tag fires on it. */
  lemma FiresExactly(s: State, path: seq<string>, value: Value)
    requires WellFormed(s)
    ensures Fires(s, path, value) <==> true in Decisions(s, path, value)
  {
    var i := IndexOf(s.triggers, path);
    if i.Some? {
      var set_, d := s.triggers[i.value].set_, Decisions(s, path, value);
      var prev := Fallback(Lookup(path, View(s)), set_.default_);
      assert s.triggers[i.value] in s.triggers;
      if Fires(s, path, value) {
        var j :| 0 <= j < |set_.triggers| && EvaluateTrigger(set_.triggers[j], prev, value, set_.states[j]).fired;
        assert d[j];
      }
      if true in d {
        var j :| 0 <= j < |d| && d[j];
        assert EvaluateTrigger(set_.triggers[j], prev, value, set_.states[j]).fired;
      }
    }
  }

  // A set advances every trigger of its tag by the update.
  lemma SetAdvances(s: State, path: seq<string>, value: Value, set_: SetState, j: nat)
    requires WellFormed(s) && SetFor(s.triggers, path) == Some(set_) && j < |set_.triggers|
    ensures var after := SetFor(Evaluated(s, path, value).triggers, path);
      var held := Lookup(path, View(s));
      var e := EvaluateTrigger(set_.triggers[j], if held.Some? then held else set_.default_, value, set_.states[j]);
      && |set_.states| == |set_.triggers|
      && after.Some? && after.value.triggers == set_.triggers && after.value.default_ == set_.default_
      && |after.value.states| == |set_.triggers| && after.value.states[j] == e.state
      && |Decisions(s, path, value)| == |set_.triggers| && Decisions(s, path, value)[j] == e.fired
  {
    assert s.triggers[IndexOf(s.triggers, path).value] in s.triggers;
    SetForOwn(s, path, value);
  }

  // Nothing but the tag's own sets and registrations touches its triggers.
  lemma OthersKeepTriggers(s: State, op: Op, path: seq<string>, interval: int)
    requires WellFormed(s) && !IsOwn(op, path)
    ensures SetFor(Step(s, op, interval).triggers, path) == SetFor(s.triggers, path)
  {
    match op
    case SetOne(p, value, _) => SetForEvaluated(s, p, value, path);
    case Register(p, triggers, default_) => SetForRegistered(s, p, triggers, default_, path);
    case _ =>
  }

  predicate Column(decisions: seq<seq<bool>>, j: nat, fires: seq<bool>) {
    |decisions| == |fires| && forall n | 0 <= n < |fires| :: j < |decisions[n]| && decisions[n][j] == fires[n]
  }

  lemma ColumnGrows(d: seq<bool>, decisions: seq<seq<bool>>, j: nat, fires: seq<bool>)
    requires Column(decisions, j, fires) && j < |d|
    ensures Column([d] + decisions, j, [d[j]] + fires)
  {
  }

  /** In any run the decisions of each trigger of a tag on its sets are its trace, over what
      the sets find and set, from the state it started in. */
  lemma {:induction false} DecisionsAreTraces(
    s: State, ops: seq<Op>, path: seq<string>, interval: int, set_: SetState, j: nat)
    requires WellFormed(s) && SetFor(s.triggers, path) == Some(set_) && j < |set_.triggers| == |set_.states|
    requires forall op | op in ops :: !(op.Register? && op.path == path)
    ensures Column(TagDecisions(s, ops, path, interval), j,
                   Trace(set_.triggers[j], set_.default_, set_.states[j], Updates(s, ops, path, interval)))
    decreases |ops|, 1
  {
    if ops != [] {
      assert ops[0] in ops;
      if SetsTag(ops[0], path) {
        OwnSetTraced(s, ops, path, interval, set_, j);
      } else {
        OthersKeepTriggers(s, ops[0], path, interval);
        DecisionsAreTraces(Step(s, ops[0], interval), ops[1..], path, interval, set_, j);
        Unfolded(s, ops[0], ops[1..], path, interval);
        assert [ops[0]] + ops[1..] == ops;
      }
    }
  }

  lemma {:induction false} OwnSetTraced(
    s: State, ops: seq<Op>, path: seq<string>, interval: int, set_: SetState, j: nat)
    requires WellFormed(s) && SetFor(s.triggers, path) == Some(set_) && j < |set_.triggers| == |set_.states|
    requires ops != [] && SetsTag(ops[0], path) && forall op | op in ops :: !(op.Register? && op.path == path)
    ensures Column(TagDecisions(s, ops, path, interval), j,
                   Trace(set_.triggers[j], set_.default_, set_.states[j], Updates(s, ops, path, interval)))
    decreases |ops|, 0
  {
    var op, s' := ops[0], Step(s, ops[0], interval);
    SetAdvances(s, path, op.value, set_, j);
    SetKeepsEvaluated(s, op, interval);
    var after := SetFor(s'.triggers, path).value;
    DecisionsAreTraces(s', ops[1..], path, interval, after, j);
    Unfolded(s, op, ops[1..], path, interval);
    assert [op] + ops[1..] == ops;
    var updates := Updates(s', ops[1..], path, interval);
    var fires := Trace(set_.triggers[j], set_.default_, after.states[j], updates);
    ColumnGrows(Decisions(s, path, op.value), TagDecisions(s', ops[1..], path, interval), j, fires);
    var update := Update(Lookup(path, View(s)), op.value);
    assert ([update] + updates)[1..] == updates;
  }

  lemma SetKeepsEvaluated(s: State, op: Op, interval: int)
    requires WellFormed(s) && op.SetOne?
    ensures Step(s, op, interval).triggers == Evaluated(s, op.path, op.value).triggers
  {
  }

  lemma Unfolded(s: State, op: Op, rest: seq<Op>, path: seq<string>, interval: int)
    requires WellFormed(s)
    ensures var s' := Step(s, op, interval);
      if SetsTag(op, path) then
        && TagDecisions(s, [op] + rest, path, interval)
           == [Decisions(s, path, op.value)] + TagDecisions(s', rest, path, interval)
        && Updates(s, [op] + rest, path, interval)
           == [Update(Lookup(path, View(s)), op.value)] + Updates(s', rest, path, interval)
      else
        && TagDecisions(s, [op] + rest, path, interval) == TagDecisions(s', rest, path, interval)
        && Updates(s, [op] + rest, path, interval) == Updates(s', rest, path, interval)
  {
    assert ([op] + rest)[1..] == rest;
  }

  predicate ReadsNoPrevious(trigger: LogTrigger) {
    !trigger.AnyChange? && !trigger.Enter? && !trigger.Exit?
  }

  // Crossings and deltas go by the values set alone.
  lemma {:induction false} TraceIsReplay(
    trigger: LogTrigger, default_: Option<Value>, prev: Option<Value>, state: TriggerState, updates: seq<Update>)
    requires ReadsNoPrevious(trigger)
    ensures Trace(trigger, default_, state, updates) == Replay(trigger, prev, state, Values(updates))
    decreases |updates|
  {
    if updates != [] {
      var e := EvaluateTrigger(trigger, prev, updates[0].value, state);
      assert Values(updates)[1..] == Values(updates[1..]);
      TraceIsReplay(trigger, default_, Some(updates[0].value), e.state, updates[1..]);
    }
  }

  // The others go by what a set finds: changes, entries and exits of the tag itself.
  lemma {:induction false} TraceOfChanges(
    target: Value, default_: Option<Value>, state: TriggerState, updates: seq<Update>, n: nat)
    requires n < |updates|
    ensures var held, now := updates[n].held, updates[n].value;
      var was := if held.Some? then held.value else default_.GetOr(Null);
      && (Trace(AnyChange, default_, state, updates)[n] <==> !JsonEq(was, now))
      && (Trace(Enter(target), default_, state, updates)[n] <==> !JsonEq(was, target) && JsonEq(now, target))
      && (Trace(Exit(target), default_, state, updates)[n] <==> JsonEq(was, target) && !JsonEq(now, target))
    decreases n
  {
    if n == 0 {
      var held := updates[0].held;
      var prev := if held.Some? then held else default_;
      ChangesFireExactly(target, prev, state, [updates[0].value], 0);
    } else {
      TraceOfChanges(target, default_, state, updates[1..], n - 1);
    }
  }

  /** From its registration on, whatever else happens in the run, each crossing or delta
      trigger of a tag decides on the tag's sets exactly as replayed over the values set, so
      every law of such replays holds of the runtime. */
  lemma RuntimeReplays(s: State, triggers: seq<LogTrigger>, default_: Option<Value>,
                       ops: seq<Op>, path: seq<string>, interval: int, j: nat)
    requires WellFormed(s) && j < |triggers| && ReadsNoPrevious(triggers[j])
    requires forall op | op in ops :: !(op.Register? && op.path == path)
    ensures var r := Step(s, Register(path, triggers, default_), interval);
      Column(TagDecisions(r, ops, path, interval), j,
             Replay(triggers[j], None, FRESH, Values(Updates(r, ops, path, interval))))
  {
    var r := Step(s, Register(path, triggers, default_), interval);
    var set_ := SetState(triggers, seq(|triggers|, _ => FRESH), default_);
    WithoutPathIsPart(s.triggers, path);
    SetForRegistered(s, path, triggers, default_, path);
    DecisionsAreTraces(r, ops, path, interval, set_, j);
    TraceIsReplay(triggers[j], default_, None, FRESH, Updates(r, ops, path, interval));
  }
}
