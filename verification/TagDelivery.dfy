// What the tag runtime delivers, and when: every bucket goes out at the commit that is due,
// what a reader sees is what the agent has, and a failed call loses what the code says.
module TagDelivery {
  import opened Json
  import opened Wrappers
  import opened Diff
  import opened DiffLaws
  import opened DiffRoundTrip
  import opened KeyPaths
  import opened Triggers
  import opened TagsRuntime
  import opened TagRuns
  import opened TagReads

  // ---- one commit ----

  // Something to say, and no flush within the interval before `now`, or none at all.
  predicate Overdue(log: Value, last: Option<int>, now: int, interval: int) {
    log.Obj? && log.m != map[] && (last == None || now >= last.value + interval)
  }

  function SentIf(sent: bool, bucket: Value): seq<Value> {
    if sent && bucket.Obj? && bucket.m != map[] then [bucket] else []
  }

  /** Everything a commit sends, for any answers of the agent: the overlay if a write is owed,
      then the immediate bucket, then the periodic one if it is overdue, up to the first
      call that fails. */
  lemma CommitSendsExactly(s: State, now: int, interval: int, agent: Agent)
    ensures var r := Commit(s, now, interval, agent);
      var reached1 := !s.dirty || agent.aggregate;
      var reached2 := reached1 && (IsEmptyObject(s.immediate) || agent.immediate);
      var due := Overdue(s.log, s.lastFlush, now, interval);
      && r.state.published == s.published + (if s.dirty && agent.aggregate then [s.pending] else [])
      && r.state.messages == s.messages + SentIf(reached1 && agent.immediate, s.immediate)
                             + SentIf(reached2 && due && agent.periodic, s.log)
      && r.ok == (reached2 && (due ==> agent.periodic))
      && r.state.immediate == (if reached1 && !IsEmptyObject(s.immediate) then EMPTY else s.immediate)
      && r.state.log == (if reached2 && due then EMPTY else s.log)
      && r.state.lastFlush == (if reached2 && due then Some(now) else s.lastFlush)
  {
  }

  // A failed publish loses the overlay: the cache alone is read, and nothing is owed.
  lemma FailedPublishLosesOverlay(s: State, now: int, interval: int, agent: Agent)
    requires s.dirty && !agent.aggregate && s.cache.Obj?
    ensures var r := Commit(s, now, interval, agent);
      !r.ok && !r.state.dirty && View(r.state) == s.cache && r.state.log == s.log && r.state.immediate == s.immediate
  {
    MergeEmpty(s.cache);
  }

  // A failed immediate flush keeps the write to be read and logged; what was owed stays so.
  lemma FailedFlushKeepsWrite(s: State, tags: Value, opts: SetOptions)
    requires Accepts(s, tags, opts) && opts.flush
    ensures var r := SetNested(s, tags, opts, false);
      && !r.ok && r.state.published == s.published && r.state.dirty == s.dirty && r.state.cache == s.cache
      && r.state.pending == Merge(s.pending, tags)
      && (if opts.log then r.state.immediate == Merge(s.immediate, tags) else r.state.log == Merge(s.log, tags))
  {
  }

  // ---- periodic logs over a run ----

  // The commits of a run that emptied the periodic bucket.
  function LogTimes(s: State, ops: seq<Op>, interval: int): seq<int>
    requires WellFormed(s)
    decreases |ops|
  {
    if ops == [] then []
    else
      var s' := Step(s, ops[0], interval);
      (if ops[0].Publish? && !IsEmptyObject(s.log) && IsEmptyObject(s'.log) then [ops[0].now] else [])
      + LogTimes(s', ops[1..], interval)
  }

  function LastTime(before: Option<int>, times: seq<int>): Option<int> {
    if times == [] then before else Some(times[|times| - 1])
  }

  lemma LastTimeSplits(before: Option<int>, a: seq<int>, b: seq<int>)
    ensures LastTime(before, a + b) == LastTime(LastTime(before, a), b)
  {
  }

  lemma {:induction false} FlushTimeIsLast(s: State, ops: seq<Op>, interval: int)
    requires WellFormed(s)
    ensures Run(s, ops, interval).lastFlush == LastTime(s.lastFlush, LogTimes(s, ops, interval))
    decreases |ops|
  {
    if ops != [] {
      var s' := Step(s, ops[0], interval);
      FlushTimeStep(s, ops[0], interval);
      FlushTimeIsLast(s', ops[1..], interval);
      LastTimeSplits(s.lastFlush, LogTimes(s, [ops[0]], interval), LogTimes(s', ops[1..], interval));
      assert [ops[0]][1..] == [];
      assert LogTimes(s, ops, interval) == LogTimes(s, [ops[0]], interval) + LogTimes(s', ops[1..], interval);
    }
  }

  lemma FlushTimeStep(s: State, op: Op, interval: int)
    requires WellFormed(s)
    ensures Step(s, op, interval).lastFlush == LastTime(s.lastFlush, LogTimes(s, [op], interval))
  {
    assert [op][1..] == [];
    if op.Publish? {
      CommitSendsExactly(s, op.now, interval, ACCEPTING);
    }
  }

  /** Nothing waits longer than the interval: after any commit of a run from the start, a
      periodic bucket that is not empty had a flush less than the interval before. */
  lemma NothingWaitsTooLong(ops: seq<Op>, now: int, interval: int)
    ensures var s := Run(INITIAL, ops, interval);
      var s' := Step(s, Publish(now), interval);
      !IsEmptyObject(s'.log) ==> exists t | t in LogTimes(INITIAL, ops, interval) :: now - t < interval
  {
    var s := Run(INITIAL, ops, interval);
    CommitSendsExactly(s, now, interval, ACCEPTING);
    FlushTimeIsLast(INITIAL, ops, interval);
    var times := LogTimes(INITIAL, ops, interval);
    if !IsEmptyObject(Step(s, Publish(now), interval).log) {
      assert !Overdue(s.log, s.lastFlush, now, interval);
      assert times[|times| - 1] in times;
    }
  }

  // ---- a set reaches its bucket ----

  /** An accepted value is in the immediate bucket, to go out with the next commit, if its
      log was asked for or a trigger fired, and in the periodic one otherwise; never in both. */
  lemma SetIsLogged(s: State, path: seq<string>, value: Value, opts: SetOptions)
    requires WellFormed(s) && path != [] && !value.Obj? && Accepts(s, Construct(path, value), opts)
    requires Slotted(path, s.log)
    ensures var s' := SetTag(s, path, value, opts, true).state;
      if opts.log || Fires(s, path, value)
      then Lookup(path, s'.immediate) == Some(value) && Lookup(path, s'.log).None?
      else Lookup(path, s'.log) == Some(value) && s'.immediate == s.immediate
  {
    ConstructSlotted(path, value);
    LookupConstruct(path, value);
    LookupMerged(path, s.immediate, Construct(path, value));
    LookupMerged(path, s.log, Construct(path, value));
    SlotStrip(path, s.log, Construct(path, value));
  }

  /** Setting a plain value is a no-op, triggers aside, exactly when changes alone are wanted
      and the tag holds an equal value. */
  lemma SetIsSkippedExactly(s: State, path: seq<string>, value: Value, opts: SetOptions, sendOk: bool)
    requires WellFormed(s) && path != [] && !value.Obj?
    ensures var held := Lookup(path, View(s));
      var r := SetTag(s, path, value, opts, sendOk);
      if opts.onlyIfChanged && held.Some? && PyEq(held.value, value)
      then r == Outcome(Evaluated(s, path, value), true)
      else r.state.pending == Merge(s.pending, Construct(path, value)) && (opts.flush || r.state.dirty)
  {
    SingleSetIsSkippedExactly(path, View(s), value);
    NestedSetLeaves(Evaluated(s, path, value), Construct(path, value),
                    opts.(log := opts.log || Fires(s, path, value)), sendOk);
  }

  lemma NestedSetLeaves(s: State, tags: Value, opts: SetOptions, sendOk: bool)
    ensures var r := SetNested(s, tags, opts, sendOk);
      if Accepts(s, tags, opts) then r.state.pending == Merge(s.pending, tags) && (opts.flush || r.state.dirty)
      else r == Outcome(s, true)
  {
  }

  /** And for any tags: they are skipped exactly when changes alone are wanted and merging
      them would change nothing, if they put `{}` in no plain value's place. */
  lemma NestedSetIsSkippedExactly(s: State, tags: Value, opts: SetOptions)
    requires View(s).Obj? && tags.Obj? && !Flattens(View(s), tags)
    ensures Accepts(s, tags, opts) <==> !opts.onlyIfChanged || Firm(Merge(View(s), tags)) != Firm(View(s))
  {
    EmptyDiffMeansNoChange(View(s), tags);
  }

  // ---- tags by name ----

  // Names give distinct tags distinct paths, none inside another, under app keys or globally.
  lemma ScopedIsInjective(app: string, key: string, app': string, key': string)
    requires app != "" && app' != ""
    ensures Scoped(app, key) <= Scoped(app', key') <==> app == app' && key == key'
    ensures Scoped("", key) <= Scoped("", key') <==> key == key'
    ensures Scoped("", key) <= Scoped(app', key') <==> key == app'
    ensures !(Scoped(app, key) <= Scoped("", key'))
  {
    assert Scoped(app, key)[0] == app && Scoped(app, key)[1] == key;
    assert Scoped(app', key')[0] == app' && Scoped(app', key')[1] == key';
    assert Scoped("", key)[0] == key && Scoped("", key')[0] == key';
  }

  /** By name: a plain value set is what `get_tag` returns, up to number representation, and
      no other tag of any app reads differently for it. */
  lemma SetThenGet(s: State, app: string, key: string, value: Value, opts: SetOptions, other: string, otherKey: string)
    requires WellFormed(s) && !value.Obj? && app != "" && other != "" && (app != other || key != otherKey)
    requires var path := Scoped(other, otherKey); Slotted(path, s.cache) && Slotted(path, s.pending)
    ensures var s' := SetTag(s, Scoped(app, key), value, opts, true).state;
      && GetTag(s', app, key).Some? && PyEq(GetTag(s', app, key).value, value)
      && GetTag(s', other, otherKey).GetOr(Null) == GetTag(s, other, otherKey).GetOr(Null)
  {
    var path, elsewhere := Scoped(app, key), Scoped(other, otherKey);
    ReadYourWrite(s, path, value, opts, true);
    ScopedIsInjective(app, key, other, otherKey);
    ScopedIsInjective(other, otherKey, app, key);
    ConstructElsewhere(elsewhere, path, value);
    var e, w := Evaluated(s, path, value), Construct(path, value);
    var over := Merge(s.pending, w);
    SlotMerge(elsewhere, s.pending, w);
    SlotMerge(elsewhere, s.cache, s.pending);
    SlotMerge(elsewhere, s.cache, over);
    OverlayAfterPublish(s.cache, over);
  }

  // ---- what the agent has ----

  // Nothing is owed: what is read is what is cached.
  predicate Settled(s: State) {
    s.cache.Obj? && s.pending.Obj? && (!s.dirty ==> Denull(View(s)) == Denull(s.cache))
  }

  lemma SetSettles(s: State, tags: Value, opts: SetOptions)
    requires Settled(s) && tags.Obj?
    ensures Settled(SetNested(s, tags, opts, true).state)
  {
    if Accepts(s, tags, opts) {
      SetLeaves(s, tags, opts);
      var over := Merge(s.pending, tags);
      OverlayAfterPublish(s.cache, over);
      DeletingReadsAsNull(s.cache, over);
    }
  }

  lemma CommitSettles(s: State, now: int, interval: int)
    requires Settled(s)
    ensures var s' := Commit(s, now, interval, ACCEPTING).state; Settled(s') && !s'.dirty
  {
    CommitReads(s, now, interval);
    MergeEmpty(ApplyDiff(s.cache, s.pending, true));
  }

  predicate WritesGroups(op: Op) {
    !op.Sync? && (IsSet(op) ==> WriteOf(op).Obj?)
  }

  lemma StepSettles(s: State, op: Op, interval: int)
    requires WellFormed(s) && Settled(s) && WritesGroups(op)
    ensures Settled(Step(s, op, interval))
  {
    match op
    case SetOne(path, value, opts) =>
      SetSettles(Evaluated(s, path, value), WriteOf(op), opts.(log := opts.log || Fires(s, path, value)));
    case SetMany(tags, opts) => SetSettles(s, tags, opts);
    case Publish(now) => CommitSettles(s, now, interval);
    case _ =>
  }

  lemma {:induction false} RunSettles(s: State, ops: seq<Op>, interval: int)
    requires WellFormed(s) && Settled(s) && forall op | op in ops :: WritesGroups(op)
    ensures Settled(Run(s, ops, interval))
    decreases |ops|
  {
    if ops != [] {
      assert WritesGroups(ops[0]);
      StepSettles(s, ops[0], interval);
      RunSettles(Step(s, ops[0], interval), ops[1..], interval);
    }
  }

  /** Delivery: after a commit that ends any run of sets, buffered or flushed, an agent that
      merges what is published has exactly what a reader sees, a null read as missing. */
  lemma CommitDelivers(ops: seq<Op>, now: int, interval: int)
    requires forall op | op in ops :: WritesGroups(op)
    ensures var s := Step(Run(INITIAL, ops, interval), Publish(now), interval);
      Denull(MergeAll(EMPTY, s.published)) == Denull(View(s))
  {
    MergeEmpty(EMPTY);
    RunSettles(INITIAL, ops, interval);
    forall op | op in ops ensures !op.Sync? {
      assert WritesGroups(op);
    }
    AgentFollowsCache(INITIAL, ops, interval, EMPTY);
    var r := Run(INITIAL, ops, interval);
    CommitSettles(r, now, interval);
    PublishedStep(r, Publish(now), interval, EMPTY);
  }
}
