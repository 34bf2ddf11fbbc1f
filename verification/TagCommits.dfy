// Commits and triggers: where a commit falls among the sets of a run is visible to the
// log triggers of a tag exactly through a default they can tell from null.
module TagCommits {
  import opened Json
  import opened Wrappers
  import opened Diff
  import opened DiffLaws
  import opened KeyPaths
  import opened Triggers
  import opened TriggerLaws
  import opened TagsRuntime
  import opened TagRuns
  import opened TagReads

  function Decisions(s: State, path: seq<string>, value: Value): seq<bool>
    requires WellFormed(s)
  {
    var i := IndexOf(s.triggers, path);
    if i.None? then []
    else
      var set_ := s.triggers[i.value].set_;
      var prev := Fallback(Lookup(path, View(s)), set_.default_);
      seq(|set_.triggers|, j requires 0 <= j < |set_.triggers| =>
        EvaluateTrigger(set_.triggers[j], prev, value, set_.states[j]).fired)
  }

  // What every trigger decides on every set of a run.
  function AllDecisions(s: State, ops: seq<Op>, interval: int): seq<seq<bool>>
    requires WellFormed(s)
    decreases |ops|
  {
    if ops == [] then []
    else
      (if ops[0].SetOne? then [Decisions(s, ops[0].path, ops[0].value)] else [])
      + AllDecisions(Step(s, ops[0], interval), ops[1..], interval)
  }

  predicate AllBlind(triggers: seq<LogTrigger>, default_: Option<Value>) {
    forall t | t in triggers :: Blind(t, default_.GetOr(Null))
  }

  // A reading that differs in null against missing only does not matter to a blind trigger.
  lemma SameEvaluation(trigger: LogTrigger, x: Option<Value>, y: Option<Value>, default_: Option<Value>,
                       value: Value, state: TriggerState)
    requires Blind(trigger, default_.GetOr(Null)) && x.GetOr(Null) == y.GetOr(Null)
    ensures EvaluateTrigger(trigger, Fallback(x, default_), value, state)
            == EvaluateTrigger(trigger, Fallback(y, default_), value, state)
  {
    BlindExactly(trigger, default_.GetOr(Null), state);
    var d := default_.GetOr(Null);
    assert EvaluateTrigger(trigger, Some(Null), value, state) == EvaluateTrigger(trigger, Some(d), value, state);
    assert EvaluateTrigger(trigger, default_, value, state) == EvaluateTrigger(trigger, Some(d), value, state);
  }

  // ---- the default shows ----

  /** Once a cleared tag is committed its default takes over as the previous value; a
      trigger decides the same on every update before and after that commit exactly when it
      is blind to the default. */
  lemma CommitExposesDefault(s: State, path: seq<string>, i: nat, j: nat, d: Value, now: int, interval: int)
    requires WellFormed(s) && path != [] && Slotted(path, s.cache) && Slotted(path, s.pending)
    requires s.dirty && Lookup(path, s.pending) == Some(Null)
    requires IndexOf(s.triggers, path) == Some(i) && s.triggers[i].set_.default_ == Some(d)
    requires j < |s.triggers[i].set_.triggers|
    ensures var t := Commit(s, now, interval, ACCEPTING).state;
      var trigger := s.triggers[i].set_.triggers[j];
      && (Blind(trigger, d) <==> forall v :: Decisions(s, path, v)[j] == Decisions(t, path, v)[j])
      && (!Blind(trigger, d) ==> Decisions(s, path, Telltale(trigger)) != Decisions(t, path, Telltale(trigger)))
  {
    var t := Commit(s, now, interval, ACCEPTING).state;
    var trigger, state := s.triggers[i].set_.triggers[j], s.triggers[i].set_.states[j];
    SlotMerge(path, s.cache, s.pending);
    CommitReads(s, now, interval);
    SlotPublish(path, s.cache, s.pending);
    MergeEmpty(ApplyDiff(s.cache, s.pending, true));
    BlindExactly(trigger, d, state);
    forall v
      ensures Decisions(s, path, v)[j] == EvaluateTrigger(trigger, Some(Null), v, state).fired
      ensures Decisions(t, path, v)[j] == EvaluateTrigger(trigger, Some(d), v, state).fired
    {
    }
    var v := Telltale(trigger);
    assert !Blind(trigger, d) ==> Decisions(s, path, v)[j] != Decisions(t, path, v)[j];
  }

  // The tag has these triggers and this default, and a null still to be published.
  predicate Cleared(s: State, path: seq<string>, triggers: seq<LogTrigger>, d: Value) {
    && WellFormed(s) && s.dirty && Slotted(path, s.cache) && Slotted(path, s.pending)
    && Lookup(path, s.pending) == Some(Null)
    && var i := IndexOf(s.triggers, path);
      i.Some? && s.triggers[i.value].set_.triggers == triggers && s.triggers[i.value].set_.default_ == Some(d)
  }

  const CLEAR := SetOptions(false, false, false)

  /** So the condition is needed: wherever a run has got to, a trigger that is not blind to
      its default gives two continuations with the same sets that one commit tells apart. */
  lemma DefaultIsNoticed(s: State, path: seq<string>, triggers: seq<LogTrigger>, d: Value, j: nat,
                         opts: SetOptions, now: int, interval: int)
    requires WellFormed(s) && path != [] && Slotted(path, s.cache) && Slotted(path, s.pending)
    requires j < |triggers| && !Blind(triggers[j], d)
    ensures var start := [Register(path, triggers, Some(d)), SetOne(path, Null, CLEAR)];
      var probe := SetOne(path, Telltale(triggers[j]), opts);
      AllDecisions(s, start + [probe], interval) != AllDecisions(s, start + [Publish(now), probe], interval)
  {
    var register, clear := Register(path, triggers, Some(d)), SetOne(path, Null, CLEAR);
    var probe := SetOne(path, Telltale(triggers[j]), opts);
    RegisteredThenCleared(s, path, triggers, d, interval);
    ProbesDiffer(Step(Step(s, register, interval), clear, interval), path, triggers, d, j, opts, now, interval);
    StartKeepsDifference(s, register, clear, [probe], [Publish(now), probe], interval);
  }

  lemma ProbesDiffer(s: State, path: seq<string>, triggers: seq<LogTrigger>, d: Value, j: nat,
                     opts: SetOptions, now: int, interval: int)
    requires path != [] && Cleared(s, path, triggers, d)
    requires j < |triggers| && !Blind(triggers[j], d)
    ensures var probe := SetOne(path, Telltale(triggers[j]), opts);
      AllDecisions(s, [probe], interval) != AllDecisions(s, [Publish(now), probe], interval)
  {
    CommitExposesDefault(s, path, IndexOf(s.triggers, path).value, j, d, now, interval);
    Probed(s, path, Telltale(triggers[j]), opts, now, interval);
  }

  lemma Probed(s: State, path: seq<string>, v: Value, opts: SetOptions, now: int, interval: int)
    requires WellFormed(s)
    ensures var probe := SetOne(path, v, opts);
      && AllDecisions(s, [probe], interval) == [Decisions(s, path, v)]
      && AllDecisions(s, [Publish(now), probe], interval)
         == [Decisions(Commit(s, now, interval, ACCEPTING).state, path, v)]
  {
    var probe := SetOne(path, v, opts);
    DecisionsUnfold(s, probe, [], interval);
    DecisionsUnfold(Step(s, Publish(now), interval), probe, [], interval);
    DecisionsUnfold(s, Publish(now), [probe], interval);
  }

  lemma StartKeepsDifference(s: State, register: Op, clear: Op, a: seq<Op>, b: seq<Op>, interval: int)
    requires WellFormed(s) && register.Register? && clear.SetOne?
    requires var r := Step(Step(s, register, interval), clear, interval);
      AllDecisions(r, a, interval) != AllDecisions(r, b, interval)
    ensures AllDecisions(s, [register, clear] + a, interval) != AllDecisions(s, [register, clear] + b, interval)
  {
    StartUnfolds(s, register, clear, a, interval);
    StartUnfolds(s, register, clear, b, interval);
    var first := [Decisions(Step(s, register, interval), clear.path, clear.value)];
    var x := AllDecisions(Step(Step(s, register, interval), clear, interval), a, interval);
    var y := AllDecisions(Step(Step(s, register, interval), clear, interval), b, interval);
    assert (first + x)[1..] == x && (first + y)[1..] == y;
  }

  lemma StartUnfolds(s: State, register: Op, clear: Op, rest: seq<Op>, interval: int)
    requires WellFormed(s) && register.Register? && clear.SetOne?
    ensures var r := Step(s, register, interval);
      AllDecisions(s, [register, clear] + rest, interval) ==
      [Decisions(r, clear.path, clear.value)] + AllDecisions(Step(r, clear, interval), rest, interval)
  {
    assert [register, clear] + rest == [register] + ([clear] + rest);
    DecisionsUnfold(s, register, [clear] + rest, interval);
    DecisionsUnfold(Step(s, register, interval), clear, rest, interval);
  }

  lemma DecisionsUnfold(s: State, op: Op, rest: seq<Op>, interval: int)
    requires WellFormed(s)
    ensures AllDecisions(s, [op] + rest, interval) ==
            (if op.SetOne? then [Decisions(s, op.path, op.value)] else [])
            + AllDecisions(Step(s, op, interval), rest, interval)
  {
    assert ([op] + rest)[1..] == rest;
  }

  lemma RegisteredThenCleared(s: State, path: seq<string>, triggers: seq<LogTrigger>, d: Value, interval: int)
    requires WellFormed(s) && path != [] && Slotted(path, s.cache) && Slotted(path, s.pending)
    ensures var r := Step(s, Register(path, triggers, Some(d)), interval);
      Cleared(Step(r, SetOne(path, Null, CLEAR), interval), path, triggers, d)
  {
    var r := Step(s, Register(path, triggers, Some(d)), interval);
    var e, w := Evaluated(r, path, Null), Construct(path, Null);
    WithoutPathIsPart(s.triggers, path);
    LastIsFound(WithoutPath(s.triggers, path), Entry(path, SetState(triggers, seq(|triggers|, _ => FRESH), Some(d))));
    FoundAfterUpdate(r.triggers, path, e.triggers[IndexOf(r.triggers, path).value]);
    ConstructSlotted(path, Null);
    var opts := CLEAR.(log := Fires(r, path, Null));
    SetLeaves(e, w, opts);
    LookupConstruct(path, Null);
    SlotMerge(path, s.pending, w);
  }

  lemma {:induction false} LastIsFound(entries: seq<Entry>, last: Entry)
    requires forall e | e in entries :: e.path != last.path
    ensures IndexOf(entries + [last], last.path) == Some(|entries|)
  {
    if entries != [] {
      assert (entries + [last])[1..] == entries[1..] + [last];
      LastIsFound(entries[1..], last);
    }
  }

  // Evaluating a tag's triggers leaves them where they were, as they were declared.
  lemma {:induction false} FoundAfterUpdate(entries: seq<Entry>, path: seq<string>, entry: Entry)
    requires entry.path == path && IndexOf(entries, path).Some?
    ensures var i := IndexOf(entries, path).value; IndexOf(entries[i := entry], path) == Some(i)
  {
    if entries[0].path != path {
      var i := IndexOf(entries[1..], path).value;
      FoundAfterUpdate(entries[1..], path, entry);
      assert entries[i + 1 := entry][1..] == entries[1..][i := entry];
    }
  }
}
