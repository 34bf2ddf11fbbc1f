// One tag among others: its triggers decide by its own sets and registrations alone,
// wherever commits fall and whatever is written to other tags.
module TagPlacement {
  import opened Json
  import opened Wrappers
  import opened Diff
  import opened DiffLaws
  import opened KeyPaths
  import opened Triggers
  import opened TagsRuntime
  import opened TagRuns
  import opened TagReads
  import opened TagCommits

  // ---- the tag's own operations, and the others ----

  predicate IsOwn(op: Op, path: seq<string>) {
    (op.SetOne? || op.Register?) && op.path == path
  }

  // A write that says nothing about the tag, nor puts a plain value above it.
  predicate Elsewhere(path: seq<string>, tags: Value) {
    Slotted(path, tags) && Lookup(path, tags).None?
  }

  // Plain values and blind triggers for the tag itself, any values and triggers elsewhere.
  predicate AroundTag(op: Op, path: seq<string>) {
    match op
    case Publish(_) => true
    case Sync(_) => false
    case SetOne(p, value, _) => if p == path then Plain(value) else !(p <= path) && !(path <= p)
    case SetMany(tags, _) => Elsewhere(path, tags)
    case Register(p, triggers, default_) => p == path ==> AllBlind(triggers, default_)
  }

  function OwnOps(ops: seq<Op>, path: seq<string>): seq<Op> {
    if ops == [] then [] else (if IsOwn(ops[0], path) then [ops[0]] else []) + OwnOps(ops[1..], path)
  }

  // What the tag's triggers decide on its sets.
  function TagDecisions(s: State, ops: seq<Op>, path: seq<string>, interval: int): seq<seq<bool>>
    requires WellFormed(s)
    decreases |ops|
  {
    if ops == [] then []
    else
      (if ops[0].SetOne? && ops[0].path == path then [Decisions(s, path, ops[0].value)] else [])
      + TagDecisions(Step(s, ops[0], interval), ops[1..], path, interval)
  }

  // ---- the tag's triggers ----

  function SetFor(entries: seq<Entry>, path: seq<string>): Option<SetState> {
    var i := IndexOf(entries, path);
    if i.Some? then Some(entries[i.value].set_) else None
  }

  lemma {:induction false} SetForAppend(a: seq<Entry>, b: seq<Entry>, path: seq<string>)
    ensures SetFor(a + b, path) == if SetFor(a, path).Some? then SetFor(a, path) else SetFor(b, path)
  {
    if a == [] {
      assert a + b == b;
    } else {
      assert (a + b)[1..] == a[1..] + b;
      SetForAppend(a[1..], b, path);
    }
  }

  lemma {:induction false} SetForWithout(entries: seq<Entry>, gone: seq<string>, path: seq<string>)
    ensures SetFor(WithoutPath(entries, gone), path) == if gone == path then None else SetFor(entries, path)
  {
    if entries != [] {
      var n := |entries| - 1;
      var last := if entries[n].path == gone then [] else [entries[n]];
      SetForWithout(entries[..n], gone, path);
      SetForAppend(WithoutPath(entries[..n], gone), last, path);
      assert entries == entries[..n] + [entries[n]];
      SetForAppend(entries[..n], [entries[n]], path);
      assert SetFor([entries[n]], path) == if entries[n].path == path then Some(entries[n].set_) else None;
    }
  }

  lemma {:induction false} SetForUpdate(entries: seq<Entry>, p: seq<string>, entry: Entry, path: seq<string>)
    requires entry.path == p && IndexOf(entries, p).Some?
    ensures SetFor(entries[IndexOf(entries, p).value := entry], path)
            == if p == path then Some(entry.set_) else SetFor(entries, path)
  {
    if entries[0].path != p {
      var i := IndexOf(entries[1..], p).value;
      SetForUpdate(entries[1..], p, entry, path);
      assert entries[i + 1 := entry][1..] == entries[1..][i := entry];
    }
  }

  lemma SetForEvaluated(s: State, p: seq<string>, value: Value, path: seq<string>)
    requires WellFormed(s)
    ensures p != path ==> SetFor(Evaluated(s, p, value).triggers, path) == SetFor(s.triggers, path)
  {
    var i := IndexOf(s.triggers, p);
    if i.Some? {
      SetForUpdate(s.triggers, p, Evaluated(s, p, value).triggers[i.value], path);
    }
  }

  lemma SetForRegistered(s: State, p: seq<string>, triggers: seq<LogTrigger>, default_: Option<Value>,
                         path: seq<string>)
    ensures SetFor(Registered(s, p, triggers, default_).triggers, path)
            == if p == path then Some(SetState(triggers, seq(|triggers|, _ => FRESH), default_))
               else SetFor(s.triggers, path)
  {
    var entry := Entry(p, SetState(triggers, seq(|triggers|, _ => FRESH), default_));
    SetForWithout(s.triggers, p, path);
    SetForAppend(WithoutPath(s.triggers, p), [entry], path);
  }

  // ---- two runtimes alike in one tag ----

  predicate Holds(s: State, path: seq<string>) {
    WellFormed(s) && Slotted(path, s.cache) && Slotted(path, s.pending)
  }

  function Reading(s: State, path: seq<string>): Value {
    Lookup(path, View(s)).GetOr(Null)
  }

  predicate AlikeAt(s: State, t: State, path: seq<string>) {
    && Holds(s, path) && Holds(t, path)
    && SetFor(s.triggers, path) == SetFor(t.triggers, path)
    && (var set_ := SetFor(s.triggers, path); set_.Some? ==> AllBlind(set_.value.triggers, set_.value.default_))
    && Reading(s, path) == Reading(t, path)
  }

  lemma PublishKeepsReading(s: State, path: seq<string>, now: int, interval: int)
    requires path != [] && Holds(s, path)
    ensures var s' := Commit(s, now, interval, ACCEPTING).state;
      Holds(s', path) && s'.triggers == s.triggers && Reading(s', path) == Reading(s, path)
  {
    CommitReads(s, now, interval);
    SlotMerge(path, s.cache, s.pending);
    SlotPublish(path, s.cache, s.pending);
    MergeEmpty(ApplyDiff(s.cache, s.pending, true));
  }

  lemma WriteKeepsSlot(s: State, path: seq<string>, tags: Value, opts: SetOptions)
    requires path != [] && Slotted(path, s.cache) && Slotted(path, s.pending) && Slotted(path, tags)
    ensures var s' := SetNested(s, tags, opts, true).state;
      && Slotted(path, s'.cache) && Slotted(path, s'.pending) && s'.triggers == s.triggers
      && Reading(s', path) ==
         if Accepts(s, tags, opts) then Lookup(path, tags).GetOr(Reading(s, path)) else Reading(s, path)
  {
    if Accepts(s, tags, opts) {
      var over := Merge(s.pending, tags);
      SetLeaves(s, tags, opts);
      SlotMerge(path, s.pending, tags);
      SlotMerge(path, s.cache, s.pending);
      SlotMerge(path, s.cache, over);
      SlotPublish(path, s.cache, over);
      OverlayAfterPublish(s.cache, over);
    }
  }

  // An operation that is not the tag's own changes nothing for the tag.
  lemma OthersKeepAlike(s: State, t: State, op: Op, path: seq<string>, interval: int)
    requires path != [] && AlikeAt(s, t, path) && AroundTag(op, path) && !IsOwn(op, path)
    ensures AlikeAt(Step(s, op, interval), t, path)
  {
    match op
    case Publish(now) => PublishKeepsReading(s, path, now, interval);
    case SetOne(p, value, opts) =>
      ConstructElsewhere(path, p, value);
      SetForEvaluated(s, p, value, path);
      WriteKeepsSlot(Evaluated(s, p, value), path, WriteOf(op), opts.(log := opts.log || Fires(s, p, value)));
    case SetMany(tags, opts) => WriteKeepsSlot(s, path, tags, opts);
    case Register(p, triggers, default_) =>
      WithoutPathIsPart(s.triggers, p);
      SetForRegistered(s, p, triggers, default_, path);
  }

  lemma SameSetDecisions(set_: SetState, x: Option<Value>, y: Option<Value>, value: Value)
    requires |set_.states| == |set_.triggers| && AllBlind(set_.triggers, set_.default_)
    requires x.GetOr(Null) == y.GetOr(Null)
    ensures SetAfter(set_, x, value) == SetAfter(set_, y, value)
    ensures forall j | 0 <= j < |set_.triggers| ::
      EvaluateTrigger(set_.triggers[j], Fallback(x, set_.default_), value, set_.states[j])
      == EvaluateTrigger(set_.triggers[j], Fallback(y, set_.default_), value, set_.states[j])
  {
    forall j | 0 <= j < |set_.triggers|
      ensures EvaluateTrigger(set_.triggers[j], Fallback(x, set_.default_), value, set_.states[j])
              == EvaluateTrigger(set_.triggers[j], Fallback(y, set_.default_), value, set_.states[j])
    {
      SameEvaluation(set_.triggers[j], x, y, set_.default_, value, set_.states[j]);
    }
  }

  lemma SetForOwn(s: State, path: seq<string>, value: Value)
    requires WellFormed(s)
    ensures var set_ := SetFor(s.triggers, path);
      SetFor(Evaluated(s, path, value).triggers, path) ==
      if set_.Some? then Some(SetAfter(set_.value, Lookup(path, View(s)), value)) else None
  {
    var i := IndexOf(s.triggers, path);
    if i.Some? {
      SetForUpdate(s.triggers, path, Evaluated(s, path, value).triggers[i.value], path);
    }
  }

  lemma SameTagDecisions(s: State, t: State, path: seq<string>, value: Value)
    requires AlikeAt(s, t, path)
    ensures Decisions(s, path, value) == Decisions(t, path, value)
    ensures var a := SetFor(Evaluated(s, path, value).triggers, path);
      && a == SetFor(Evaluated(t, path, value).triggers, path)
      && (a.Some? ==> AllBlind(a.value.triggers, a.value.default_))
  {
    SetForOwn(s, path, value);
    SetForOwn(t, path, value);
    var i := IndexOf(s.triggers, path);
    if i.Some? {
      assert s.triggers[i.value] in s.triggers;
      SameSetDecisions(s.triggers[i.value].set_, Lookup(path, View(s)), Lookup(path, View(t)), value);
    }
  }

  // After a set of the tag both read the value set, or both an equal one they kept.
  lemma SameReadingAfter(s: State, t: State, path: seq<string>, value: Value, opts: SetOptions, opts': SetOptions)
    requires path != [] && Plain(value) && Holds(s, path) && Holds(t, path) && Reading(s, path) == Reading(t, path)
    requires opts.onlyIfChanged == opts'.onlyIfChanged
    ensures var w := Construct(path, value);
      Reading(SetNested(s, w, opts, true).state, path) == Reading(SetNested(t, w, opts', true).state, path)
  {
    ConstructSlotted(path, value);
    LookupConstruct(path, value);
    WriteKeepsSlot(s, path, Construct(path, value), opts);
    WriteKeepsSlot(t, path, Construct(path, value), opts');
    SingleSetIsSkippedExactly(path, View(s), value);
    SingleSetIsSkippedExactly(path, View(t), value);
  }

  lemma OwnKeepsAlike(s: State, t: State, op: Op, path: seq<string>, interval: int)
    requires path != [] && AlikeAt(s, t, path) && AroundTag(op, path) && IsOwn(op, path)
    ensures op.SetOne? ==> Decisions(s, path, op.value) == Decisions(t, path, op.value)
    ensures AlikeAt(Step(s, op, interval), Step(t, op, interval), path)
  {
    match op
    case SetOne(_, value, opts) =>
      SameTagDecisions(s, t, path, value);
      OwnSetKeepsAlike(Evaluated(s, path, value), Evaluated(t, path, value), path, value,
                       opts.(log := opts.log || Fires(s, path, value)),
                       opts.(log := opts.log || Fires(t, path, value)));
    case Register(_, triggers, default_) => RegisterKeepsAlike(s, t, op, path, interval);
  }

  lemma RegisterKeepsAlike(s: State, t: State, op: Op, path: seq<string>, interval: int)
    requires AlikeAt(s, t, path) && AroundTag(op, path) && op.Register? && op.path == path
    ensures AlikeAt(Step(s, op, interval), Step(t, op, interval), path)
  {
    WithoutPathIsPart(s.triggers, path);
    WithoutPathIsPart(t.triggers, path);
    SetForRegistered(s, path, op.triggers, op.default_, path);
    SetForRegistered(t, path, op.triggers, op.default_, path);
  }

  lemma OwnSetKeepsAlike(s: State, t: State, path: seq<string>, value: Value, opts: SetOptions, opts': SetOptions)
    requires path != [] && AlikeAt(s, t, path) && Plain(value) && opts.onlyIfChanged == opts'.onlyIfChanged
    ensures var w := Construct(path, value);
      AlikeAt(SetNested(s, w, opts, true).state, SetNested(t, w, opts', true).state, path)
  {
    ConstructSlotted(path, value);
    WriteKeepsSlot(s, path, Construct(path, value), opts);
    WriteKeepsSlot(t, path, Construct(path, value), opts');
    SameReadingAfter(s, t, path, value, opts, opts');
  }

  /** The same sets and registrations of one tag, with commits anywhere and any sets and
      registrations of other tags around them: its triggers decide the same on every set,
      if they are blind to its default. */
  lemma {:induction false} PlacementIsInvisible(
    s: State, t: State, ops: seq<Op>, others: seq<Op>, path: seq<string>, interval: int)
    requires path != [] && AlikeAt(s, t, path) && OwnOps(ops, path) == OwnOps(others, path)
    requires forall op | op in ops + others :: AroundTag(op, path)
    ensures TagDecisions(s, ops, path, interval) == TagDecisions(t, others, path, interval)
    decreases |ops| + |others|
  {
    if ops != [] && !IsOwn(ops[0], path) {
      assert ops[0] in ops + others;
      OthersKeepAlike(s, t, ops[0], path, interval);
      PlacementIsInvisible(Step(s, ops[0], interval), t, ops[1..], others, path, interval);
    } else if others != [] && !IsOwn(others[0], path) {
      assert others[0] in ops + others;
      OthersKeepAlike(t, s, others[0], path, interval);
      PlacementIsInvisible(s, Step(t, others[0], interval), ops, others[1..], path, interval);
    } else if ops != [] && others != [] {
      assert ops[0] == OwnOps(ops, path)[0] && others[0] == OwnOps(others, path)[0];
      assert OwnOps(ops, path)[1..] == OwnOps(ops[1..], path) && OwnOps(others, path)[1..] == OwnOps(others[1..], path);
      assert ops[0] in ops + others;
      OwnKeepsAlike(s, t, ops[0], path, interval);
      PlacementIsInvisible(Step(s, ops[0], interval), Step(t, ops[0], interval), ops[1..], others[1..], path, interval);
    }
  }

  // ---- every tag at once ----

  predicate Apart(paths: set<seq<string>>) {
    [] !in paths && forall p, q | p in paths && q in paths && p != q :: !(p <= q)
  }

  // A single-tag set of a plain value to one of the tags, a registration, or a commit.
  predicate Ordinary(op: Op, paths: set<seq<string>>) {
    match op
    case Publish(_) => true
    case SetOne(p, value, _) => p in paths && Plain(value)
    case Register(p, triggers, default_) => p in paths ==> AllBlind(triggers, default_)
    case _ => false
  }

  predicate Alike(s: State, t: State, paths: set<seq<string>>) {
    WellFormed(s) && WellFormed(t) && forall p | p in paths :: AlikeAt(s, t, p)
  }

  function Sets(ops: seq<Op>): seq<Op> {
    if ops == [] then [] else (if ops[0].Publish? then [] else [ops[0]]) + Sets(ops[1..])
  }

  lemma CommitKeepsAlike(s: State, t: State, op: Op, paths: set<seq<string>>, interval: int)
    requires Apart(paths) && Alike(s, t, paths) && op.Publish?
    ensures Alike(Step(s, op, interval), t, paths)
  {
    forall p | p in paths ensures AlikeAt(Step(s, op, interval), t, p) {
      OthersKeepAlike(s, t, op, p, interval);
    }
  }

  lemma StepKeepsAlike(s: State, t: State, op: Op, paths: set<seq<string>>, interval: int)
    requires Apart(paths) && Alike(s, t, paths) && Ordinary(op, paths) && !op.Publish?
    ensures op.SetOne? ==> Decisions(s, op.path, op.value) == Decisions(t, op.path, op.value)
    ensures Alike(Step(s, op, interval), Step(t, op, interval), paths)
  {
    if op.SetOne? {
      SameTagDecisions(s, t, op.path, op.value);
    }
    forall p | p in paths ensures AlikeAt(Step(s, op, interval), Step(t, op, interval), p) {
      if IsOwn(op, p) {
        OwnKeepsAlike(s, t, op, p, interval);
      } else {
        OthersKeepAlike(s, t, op, p, interval);
        OthersKeepAlike(t, Step(s, op, interval), op, p, interval);
      }
    }
  }

  /** So for all tags together: the same sets and registrations with commits anywhere among
      them give the same decision of every trigger on every set. */
  lemma {:induction false} CommitPlacementIsInvisible(
    s: State, t: State, ops: seq<Op>, others: seq<Op>, paths: set<seq<string>>, interval: int)
    requires Apart(paths) && Alike(s, t, paths) && Sets(ops) == Sets(others)
    requires forall op | op in ops + others :: Ordinary(op, paths)
    ensures AllDecisions(s, ops, interval) == AllDecisions(t, others, interval)
    decreases |ops| + |others|
  {
    if ops != [] && ops[0].Publish? {
      CommitKeepsAlike(s, t, ops[0], paths, interval);
      CommitPlacementIsInvisible(Step(s, ops[0], interval), t, ops[1..], others, paths, interval);
    } else if others != [] && others[0].Publish? {
      CommitKeepsAlike(t, s, others[0], paths, interval);
      CommitPlacementIsInvisible(s, Step(t, others[0], interval), ops, others[1..], paths, interval);
    } else if ops != [] && others != [] {
      assert ops[0] == Sets(ops)[0] && others[0] == Sets(others)[0];
      assert Sets(ops)[1..] == Sets(ops[1..]) && Sets(others)[1..] == Sets(others[1..]);
      assert ops[0] in ops + others;
      StepKeepsAlike(s, t, ops[0], paths, interval);
      CommitPlacementIsInvisible(
        Step(s, ops[0], interval), Step(t, ops[0], interval), ops[1..], others[1..], paths, interval);
    }
  }
}
