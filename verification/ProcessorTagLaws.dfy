// What a processor's commits leave behind: the backend holds what memory holds, the
// log modes are ordered, and an app never triggers itself.
module ProcessorTagLaws {
  import opened Json
  import opened Wrappers
  import opened Diff
  import opened DiffLaws
  import opened ProcessorTags

  datatype Op =
    | Set(key: string, v: Value, opts: SetOptions)
    | ChangeMode(mode: LogMode)
    | CommitNow(recordLog: bool, invoking: Option<string>)

  function Step(s: State, op: Op): Outcome {
    match op
    case Set(key, v, opts) => Outcome(SetTag(s, key, v, opts), true)
    case ChangeMode(mode) => Outcome(s.(mode := mode), true)
    case CommitNow(recordLog, invoking) => Commit(s, recordLog, invoking)
  }

  // A failed commit ends the invocation.
  function Run(s: State, ops: seq<Op>): Outcome
    decreases |ops|
  {
    if ops == [] || !Step(s, ops[0]).ok then Outcome(if ops == [] then s else Step(s, ops[0]).state, ops == [])
    else Run(Step(s, ops[0]).state, ops[1..])
  }

  lemma InsertNestedAt(m: map<string, Value>, app: string, key: string, v: Value, app': string, key': string)
    ensures TagAt(InsertNested(m, app, key, v), app', key')
            == if app' == app && key' == key then Some(v) else TagAt(m, app', key')
  {
  }

  lemma {:induction false} CoveredReflexive(v: Value)
    ensures Covered(v, v)
  {
    if v.Obj? {
      forall k | k in v.m ensures Covered(v.m[k], v.m[k]) {
        CoveredReflexive(v.m[k]);
      }
    }
  }

  // ---- write-back ----

  // What memory holds under an app that is not dirty is at the backend, which may hold more.
  predicate Buffering(s: State) {
    && s.tagValues.Obj? && s.aggregate.Obj?
    && (forall app | app in s.tagValues.m && app !in s.dirty :: Kept(s, app))
    && (forall app | app in s.dirty :: DirtyApp(s, app))
    && (s.dirty.Keys <= {s.own} || s.external)
    && (s.dirty != map[] ==> s.updateTags)
    && (!s.external ==> OthersAgree(s))
  }

  predicate Kept(s: State, app: string)
    requires s.tagValues.Obj? && s.aggregate.Obj? && app in s.tagValues.m
  {
    app in s.aggregate.m && Merge(s.aggregate.m[app], s.tagValues.m[app]) == s.aggregate.m[app]
  }

  predicate OthersAgree(s: State)
    requires s.tagValues.Obj? && s.aggregate.Obj?
  {
    forall app | app != s.own && app in s.aggregate.m.Keys + s.tagValues.m.Keys ::
      SameAt(s.aggregate.m, s.tagValues.m, app)
  }

  predicate DirtyApp(s: State, app: string)
    requires s.tagValues.Obj? && app in s.dirty
  {
    app in s.tagValues.m && s.tagValues.m[app].Obj? && s.tagValues.m[app] != EMPTY
  }

  lemma SetKeepsBuffer(s: State, key: string, v: Value, opts: SetOptions)
    requires Buffering(s)
    ensures Buffering(SetTag(s, key, v, opts))
  {
    var app := AppOf(s, opts);
    var touched := s.(touched := InsertNested(s.touched, app, key, v));
    SameBuffer(s, touched);
    if Current(s, app, key) != v {
      StoredKeepsBuffer(touched, app, key, v, opts.log);
    } else {
      SameBuffer(touched, Requested(touched, app, opts.log));
    }
  }

  lemma SameBuffer(s: State, s': State)
    requires Buffering(s)
    requires s'.tagValues == s.tagValues && s'.aggregate == s.aggregate && s'.dirty == s.dirty && s'.own == s.own
    requires (s.external ==> s'.external) && (s.updateTags ==> s'.updateTags)
    ensures Buffering(s')
  {
    forall a | a in s.dirty ensures DirtyApp(s', a) {
      assert DirtyApp(s, a);
    }
    forall a | a in s.tagValues.m && a !in s.dirty ensures Kept(s', a) {
      assert Kept(s, a);
    }
  }

  lemma StoredKeepsBuffer(s: State, app: string, key: string, v: Value, log: bool)
    requires Buffering(s)
    ensures Buffering(Requested(Stored(s, app, key, v), app, log))
  {
    var s' := Requested(Stored(s, app, key, v), app, log);
    assert s'.dirty.Keys == s.dirty.Keys + {app};
    assert DirtyApp(s', app) by {
      assert key in s'.tagValues.m[app].m;
    }
    forall a | a in s.dirty && a != app ensures DirtyApp(s', a) {
      assert DirtyApp(s, a);
    }
    forall a | a in s'.tagValues.m && a !in s'.dirty ensures Kept(s', a) {
      assert Kept(s, a);
    }
    if !s'.external {
      forall a | a != s.own && a in s'.aggregate.m.Keys + s'.tagValues.m.Keys
        ensures SameAt(s'.aggregate.m, s'.tagValues.m, a)
      {
        assert SameAt(s.aggregate.m, s.tagValues.m, a);
      }
    }
  }

  // A commit with dirty tags always has something to publish.
  lemma DirtyIsPublished(s: State)
    requires Buffering(s) && s.dirty != map[]
    ensures s.updateTags && Update(s).Some?
  {
    var app :| app in s.dirty;
    assert DirtyApp(s, app);
  }

  // What one commit leaves at the backend, for any state whose other apps agree: memory's
  // tags exactly when memory covers what the backend held.
  lemma CommitRestoresExactly(s: State, recordLog: bool)
    requires s.tagValues.Obj? && s.aggregate.Obj? && s.updateTags && s.dirty != map[] && Update(s).Some?
    requires s.external || OthersAgree(s)
    ensures var s' := Commit(s, recordLog, None).state;
      s'.aggregate == s'.tagValues <==> Covered(s.aggregate, s.tagValues)
  {
    var b, t := s.aggregate, s.tagValues;
    CoveredIsOverwritten(b, t);
    if !s.external {
      var p := Update(s).value;
      var r := Merge(b, p);
      forall app ensures SameAt(r.m, t.m, app) <==> SameAt(Merge(b, t).m, t.m, app) {
        MergeAt(b, p, app);
        MergeAt(b, t, app);
        if app != s.own && app in b.m.Keys + t.m.Keys {
          assert SameAt(b.m, t.m, app);
          if app in b.m {
            MergeIdempotent(b.m[app]);
          }
        }
      }
      if Merge(b, t) == t {
        SameEverywhere(r.m, t.m);
      }
      if r == t {
        forall app ensures SameAt(Merge(b, t).m, t.m, app) {
          assert SameAt(r.m, t.m, app);
        }
        SameEverywhere(Merge(b, t).m, t.m);
      }
    }
  }

  // With nothing dirty memory adds nothing to the backend.
  lemma CleanIsKept(s: State)
    requires Buffering(s) && s.dirty == map[]
    ensures Merge(s.aggregate, s.tagValues) == s.aggregate
    ensures Covered(s.aggregate, s.tagValues) <==> s.aggregate == s.tagValues
  {
    var r := Merge(s.aggregate, s.tagValues);
    forall app ensures SameAt(r.m, s.aggregate.m, app) {
      MergeAt(s.aggregate, s.tagValues, app);
      if app in s.tagValues.m {
        assert Kept(s, app);
      }
    }
    SameEverywhere(r.m, s.aggregate.m);
    CoveredIsOverwritten(s.aggregate, s.tagValues);
    CoveredReflexive(s.tagValues);
  }

  lemma {:induction false} AssociatesTwice(a: Value, t: Value)
    ensures Associates(a, t, t)
  {
    if a.Obj? && t.Obj? {
      forall k | k in a.m && k in t.m ensures Associates(a.m[k], t.m[k], t.m[k]) {
        AssociatesTwice(a.m[k], t.m[k]);
      }
    }
  }

  // What was merged once adds nothing when it is merged again.
  lemma Absorbed(a: Value, t: Value)
    ensures Merge(Merge(a, t), t) == Merge(a, t)
  {
    AssociatesTwice(a, t);
    AssociativityIsExact(a, t, t);
    MergeIdempotent(t);
  }

  /** Every commit writes back exactly when memory covers what the backend holds, and
      whether it does or not the next one finds the buffer in order. */
  lemma CommitWritesBackExactly(s: State, recordLog: bool)
    requires Buffering(s)
    ensures var s' := Commit(s, recordLog, None).state;
      && s'.dirty == map[] && Buffering(s')
      && (s'.aggregate == s'.tagValues <==> Covered(s.aggregate, s.tagValues))
  {
    if s.dirty == map[] {
      CleanIsKept(s);
      var s' := Commit(s, recordLog, None).state;
      forall a | a in s.tagValues.m ensures Kept(s', a) {
        assert Kept(s, a);
      }
    } else {
      DirtyIsPublished(s);
      CommitRestoresExactly(s, recordLog);
      var s' := Commit(s, recordLog, None).state;
      forall app | app in s.tagValues.m ensures Kept(s', app) {
        PublishedIsKept(s, recordLog, app);
      }
      if !s.external {
        forall app | app != s.own && app in s'.aggregate.m.Keys + s'.tagValues.m.Keys
          ensures SameAt(s'.aggregate.m, s'.tagValues.m, app)
        {
          MergeAt(s.aggregate, Update(s).value, app);
          assert SameAt(s.aggregate.m, s.tagValues.m, app);
        }
      }
    }
  }

  lemma PublishedIsKept(s: State, recordLog: bool, app: string)
    requires Buffering(s) && s.dirty != map[] && Update(s).Some? && app in s.tagValues.m
    ensures var s' := Commit(s, recordLog, None).state;
      s'.aggregate.Obj? && s'.tagValues == s.tagValues && Kept(s', app)
  {
    var p := Update(s).value;
    MergeAt(s.aggregate, p, app);
    if app in s.aggregate.m {
      Absorbed(s.aggregate.m[app], s.tagValues.m[app]);
    }
    MergeIdempotent(s.tagValues.m[app]);
    if !s.external && app != s.own {
      assert SameAt(s.aggregate.m, s.tagValues.m, app);
    }
  }

  // A commit the guard lets through does what an unguarded one does.
  lemma AllowedCommit(s: State, recordLog: bool, invoking: Option<string>)
    ensures Commit(s, recordLog, invoking).ok ==> Commit(s, recordLog, invoking) == Commit(s, recordLog, None)
    ensures Commit(s, recordLog, None).ok
  {
  }

  predicate Unguarded(op: Op) {
    op.CommitNow? ==> op.invoking.None?
  }

  lemma StepKeepsBuffer(s: State, op: Op)
    requires Buffering(s)
    ensures Step(s, op).ok ==> Buffering(Step(s, op).state)
    ensures Unguarded(op) ==> Step(s, op).ok
  {
    match op
    case Set(key, v, opts) => SetKeepsBuffer(s, key, v, opts);
    case ChangeMode(mode) => SameBuffer(s, s.(mode := mode));
    case CommitNow(log, from) =>
      AllowedCommit(s, log, from);
      CommitWritesBackExactly(s, log);
  }

  lemma {:induction false} RunKeepsBuffer(s: State, ops: seq<Op>)
    requires Buffering(s)
    ensures Run(s, ops).ok ==> Buffering(Run(s, ops).state)
    ensures (forall op | op in ops :: Unguarded(op)) ==> Run(s, ops).ok
    decreases |ops|
  {
    if ops != [] {
      assert ops[0] in ops;
      StepKeepsBuffer(s, ops[0]);
      if Step(s, ops[0]).ok {
        RunKeepsBuffer(Step(s, ops[0]).state, ops[1..]);
      }
    }
  }

  /** Write-back: with a backend that starts as the seed and no other writer, over every run
      a commit that succeeds leaves the backend equal to memory exactly when memory covers
      what the backend held; and without a guard all succeed. */
  lemma CommitsWriteBackExactly(s: State, ops: seq<Op>, recordLog: bool, invoking: Option<string>)
    requires Buffering(s)
    ensures var before := Run(s, ops);
      var after := Commit(before.state, recordLog, invoking);
      && (before.ok && after.ok ==>
            (after.state.aggregate == after.state.tagValues <==>
             Covered(before.state.aggregate, before.state.tagValues)))
      && ((forall op | op in ops :: Unguarded(op)) ==> before.ok && (invoking.None? ==> after.ok))
  {
    RunKeepsBuffer(s, ops);
    var before := Run(s, ops);
    AllowedCommit(before.state, recordLog, invoking);
    if before.ok {
      CommitWritesBackExactly(before.state, recordLog);
    }
  }

  // ---- sets that replace ----

  // The value put in place leaves out nothing the backend would keep: always so unless
  // both it and the backend's value are objects.
  predicate Replaces(s: State, op: Op)
    requires s.aggregate.Obj?
  {
    op.Set? ==>
      var held := TagAt(s.aggregate.m, AppOf(s, op.opts), op.key);
      held.Some? ==> Covered(held.value, op.v)
  }

  // Every set of the run replaces what the backend holds at that moment.
  predicate Replacing(s: State, ops: seq<Op>)
    decreases |ops|
  {
    ops != [] ==>
      s.aggregate.Obj? && Replaces(s, ops[0]) && (Step(s, ops[0]).ok ==> Replacing(Step(s, ops[0]).state, ops[1..]))
  }

  lemma SetKeepsCover(s: State, key: string, v: Value, opts: SetOptions)
    requires Buffering(s) && Covered(s.aggregate, s.tagValues) && Replaces(s, Set(key, v, opts))
    ensures var s' := SetTag(s, key, v, opts); Covered(s'.aggregate, s'.tagValues)
  {
    var app := AppOf(s, opts);
    if Current(s, app, key) != v {
      var next := InsertNested(s.tagValues.m, app, key, v);
      forall a | a in s.aggregate.m ensures a in next && Covered(s.aggregate.m[a], next[a]) {
        if a == app && s.aggregate.m[a].Obj? {
          forall k | k in s.aggregate.m[a].m ensures k in next[a].m && Covered(s.aggregate.m[a].m[k], next[a].m[k]) {
            assert TagAt(s.aggregate.m, a, k) == Some(s.aggregate.m[a].m[k]);
            DirtyHasGroup(s, app);
          }
        }
      }
    }
  }

  // A group of tags at the backend is one in memory.
  lemma DirtyHasGroup(s: State, app: string)
    requires Buffering(s) && Covered(s.aggregate, s.tagValues) && app in s.aggregate.m && s.aggregate.m[app].Obj?
    ensures app in s.tagValues.m && s.tagValues.m[app].Obj?
  {
    if app in s.dirty {
      assert DirtyApp(s, app);
    } else {
      assert Kept(s, app);
    }
  }

  lemma {:induction false} ReplacingIsCovered(s: State, ops: seq<Op>)
    requires Buffering(s) && Covered(s.aggregate, s.tagValues) && Replacing(s, ops)
    ensures Run(s, ops).ok ==> Covered(Run(s, ops).state.aggregate, Run(s, ops).state.tagValues)
    decreases |ops|
  {
    if ops != [] {
      StepKeepsBuffer(s, ops[0]);
      if Step(s, ops[0]).ok {
        match ops[0] {
          case Set(key, v, opts) => SetKeepsCover(s, key, v, opts);
          case ChangeMode(_) =>
          case CommitNow(log, from) =>
            AllowedCommit(s, log, from);
            CommitWritesBackExactly(s, log);
            CoveredReflexive(Step(s, ops[0]).state.tagValues);
        }
        ReplacingIsCovered(Step(s, ops[0]).state, ops[1..]);
      }
    }
  }

  /** So if every set replaces, as it does unless both values are objects, every commit that
      succeeds writes back. */
  lemma CommitsWriteBack(s: State, ops: seq<Op>, recordLog: bool, invoking: Option<string>)
    requires Buffering(s) && Covered(s.aggregate, s.tagValues) && Replacing(s, ops)
    ensures var before := Run(s, ops);
      var after := Commit(before.state, recordLog, invoking);
      before.ok && after.ok ==> after.state.aggregate == after.state.tagValues
  {
    ReplacingIsCovered(s, ops);
    CommitsWriteBackExactly(s, ops, recordLog, invoking);
  }

  lemma SeededIsBuffered(own: string, seed: Value, record: bool, mode: LogMode)
    requires seed.Obj?
    ensures var s := Fresh(own, seed, record, mode, seed); Buffering(s) && Covered(s.aggregate, s.tagValues)
  {
    CoveredReflexive(seed);
    forall app | app in seed.m ensures Merge(seed.m[app], seed.m[app]) == seed.m[app] {
      MergeIdempotent(seed.m[app]);
    }
  }

  /** One set at a time is not enough to look at: object, plain value, other object between
      two commits are two sets that replace, and yet the backend ends up equal to memory
      exactly when the last object covers the first. */
  lemma DetourLeavesRemnant(s: State, key: string, x: Value, first: Value, last: Value)
    requires Buffering(s) && s.dirty == map[] && Covered(s.aggregate, s.tagValues)
    requires TagAt(s.tagValues.m, s.own, key) == Some(x) && x.Obj? && !first.Obj? && last.Obj?
    ensures Covered(x, first) && Covered(first, last)
    ensures var opts := SetOptions(None, false);
      var after := Commit(SetTag(SetTag(s, key, first, opts), key, last, opts), false, None).state;
      after.aggregate == after.tagValues <==> Covered(x, last)
  {
    var opts := SetOptions(None, false);
    var s1 := SetTag(s, key, first, opts);
    CleanIsKept(s);
    ChangeSets(s, key, first, x);
    ChangeSets(s1, key, last, first);
    DetourCommitted(s, s1, SetTag(s1, key, last, opts), key, x, first, last);
  }

  // `t` is `s` with own tag `key` set to another value.
  predicate ChangedTo(s: State, t: State, key: string, v: Value) {
    && s.tagValues.Obj? && s.own in s.tagValues.m && s.tagValues.m[s.own].Obj?
    && t.tagValues == Obj(s.tagValues.m[s.own := Obj(s.tagValues.m[s.own].m[key := v])])
    && t.aggregate == s.aggregate && t.own == s.own && t.updateTags && s.own in t.dirty
  }

  lemma ChangeSets(s: State, key: string, v: Value, was: Value)
    requires s.tagValues.Obj? && TagAt(s.tagValues.m, s.own, key) == Some(was) && was != v
    ensures ChangedTo(s, SetTag(s, key, v, SetOptions(None, false)), key, v)
  {
  }

  lemma DetourCommitted(s: State, s1: State, s2: State, key: string, x: Value, first: Value, last: Value)
    requires ChangedTo(s, s1, key, first) && ChangedTo(s1, s2, key, last)
    requires s.aggregate == s.tagValues && TagAt(s.tagValues.m, s.own, key) == Some(x)
    ensures var after := Commit(s2, false, None).state;
      after.aggregate == after.tagValues <==> Covered(x, last)
  {
    var tags := s.tagValues.m;
    var once, twice := tags[s.own].m[key := first], tags[s.own].m[key := last];
    assert once[key := last] == twice;
    assert s2.tagValues == Obj(tags[s.own := Obj(twice)]);
    assert key in twice;
    OneTagCovered(tags, s.own, key, x, last);
    CommitRestoresExactly(s2, false);
  }

  lemma OneTagCovered(tags: map<string, Value>, app: string, key: string, x: Value, v: Value)
    requires TagAt(tags, app, key) == Some(x)
    ensures Covered(Obj(tags), Obj(tags[app := Obj(tags[app].m[key := v])])) <==> Covered(x, v)
  {
    var was, now := tags[app], Obj(tags[app].m[key := v]);
    forall k | k in was.m && k != key ensures Covered(was.m[k], now.m[k]) {
      CoveredReflexive(was.m[k]);
    }
    assert Covered(was, now) <==> Covered(x, v) by {
      assert was.m[key] == x && now.m[key] == v;
    }
    var next := tags[app := now];
    forall a | a in tags && a != app ensures Covered(tags[a], next[a]) {
      CoveredReflexive(tags[a]);
    }
    assert next[app] == now;
  }

  // ---- feedback ----

  predicate OwnOnly(data: Value, own: string) {
    data.Obj? && data.m.Keys == {own}
  }

  lemma PayloadsAreOwn(s: State, recordLog: bool)
    requires !s.external
    ensures Update(s).Some? ==> OwnOnly(Update(s).value, s.own)
    ensures LogPayload(s, recordLog).Some? ==> OwnOnly(LogPayload(s, recordLog).value, s.own)
  {
  }

  /** No feedback loop: an app that set only its own tags is never refused, whatever
      channel invoked it, and the events its writes cause are rejected as its own. */
  lemma {:induction false} NoFeedback(s: State, ops: seq<Op>)
    requires !s.external && forall p | p in s.published + s.messages :: OwnOnly(p, s.own)
    requires forall op | op in ops :: op.Set? ==> AppOf(s, op.opts) == s.own
    ensures var r := Run(s, ops);
      && r.ok && r.state.own == s.own
      && forall p | p in r.state.published + r.state.messages ::
           && (forall app, channel :: IsSelfLoop(channel, p, app) <==> channel == TAG_CHANNEL && app == s.own)
           && (forall invoking :: MayPublish(invoking, Some(s.own), TAG_CHANNEL, p))
    decreases |ops|
  {
    if ops != [] {
      assert ops[0] in ops;
      StepStaysOwn(s, ops[0]);
      NoFeedback(Step(s, ops[0]).state, ops[1..]);
    }
  }

  lemma StepStaysOwn(s: State, op: Op)
    requires !s.external && (op.Set? ==> AppOf(s, op.opts) == s.own)
    requires forall p | p in s.published + s.messages :: OwnOnly(p, s.own)
    ensures var next := Step(s, op);
      && next.ok && !next.state.external && next.state.own == s.own
      && forall p | p in next.state.published + next.state.messages :: OwnOnly(p, s.own)
  {
    if op.CommitNow? {
      PayloadsAreOwn(s, op.recordLog);
    }
  }

  /** The guard refuses exactly what would come back: any write to the invoking channel, but
      on the tag channel only one that holds another app's key. */
  lemma GuardIsExact(invoking: Option<string>, own: string, channel: string, data: Value)
    ensures MayPublish(invoking, Some(own), channel, data) <==>
            invoking != Some(channel) || (channel == TAG_CHANNEL && (data.Obj? ==> data.m.Keys <= {own}))
  {
  }

  // ---- log modes ----

  predicate TagsIn(p: Value, q: Value) {
    p.Obj? && q.Obj? &&
    forall app | app in p.m :: p.m[app].Obj? &&
      forall key | key in p.m[app].m :: TagAt(q.m, app, key) == Some(p.m[app].m[key])
  }

  // What a commit appends to the log.
  function LogOf(s: State, recordLog: bool): Option<Value> {
    if s.updateTags then LogPayload(s, recordLog) else None
  }

  // Every buffered tag is what memory holds.
  predicate AsHeld(buffer: map<string, Value>, s: State) {
    forall app | app in buffer :: buffer[app].Obj? &&
      forall key | key in buffer[app].m :: Current(s, app, key) == buffer[app].m[key]
  }

  predicate NoEmptyApp(buffer: map<string, Value>) {
    forall app | app in buffer :: buffer[app] != EMPTY
  }

  // The same sets, once in OnlyChanged and once in OnlySet.
  predicate SideBySide(c: State, t: State) {
    && c.mode == OnlyChanged && t.mode == OnlySet && c.own == t.own
    && c.tagValues.Obj? && c.tagValues == t.tagValues && c.dirty == t.dirty && c.record == t.record
    && (c.external ==> t.external)
    && (c.dirty.Keys <= {c.own} || c.external) && (t.touched.Keys <= {t.own} || t.external)
    && TagsIn(Obj(c.dirty), Obj(t.touched))
    && AsHeld(t.touched, t) && NoEmptyApp(t.touched) && NoEmptyApp(c.dirty)
    && (c.dirty != map[] ==> c.updateTags) && (t.touched != map[] ==> t.updateTags)
  }

  lemma DirtyIsTouched(c: State, t: State, app: string)
    requires SideBySide(c, t) && app in c.dirty
    ensures app in t.touched
  {
    assert c.dirty[app].Obj? && c.dirty[app] != EMPTY;
    assert c.dirty[app].m != map[];
    var key :| key in c.dirty[app].m;
    assert TagAt(t.touched, app, key).Some?;
  }

  // In every commit the changed tags are among the set tags, and both are what memory
  // holds, a missing tag read as null.
  lemma LogsAreOrdered(c: State, t: State, recordLog: bool)
    requires SideBySide(c, t)
    ensures LogOrdered(LogOf(c, recordLog), LogOf(t, recordLog))
    ensures LogHeld(LogOf(t, recordLog), t) && LogHeld(LogOf(c, recordLog), c)
  {
    if LogOf(c, recordLog).Some? {
      assert c.dirty != map[];
      var app := if c.external then var a :| a in c.dirty; a else c.own;
      DirtyIsTouched(c, t, app);
      forall a | a in c.dirty
        ensures c.dirty[a].Obj? && forall key | key in c.dirty[a].m :: Current(c, a, key) == c.dirty[a].m[key]
      {
        DirtyIsTouched(c, t, a);
        forall key | key in c.dirty[a].m ensures Current(c, a, key) == c.dirty[a].m[key] {
          assert TagAt(t.touched, a, key) == Some(c.dirty[a].m[key]);
          assert Current(t, a, key) == t.touched[a].m[key];
        }
      }
    }
  }

  lemma TagsInInserted(p: map<string, Value>, q: map<string, Value>, app: string, key: string, v: Value)
    requires TagsIn(Obj(p), Obj(q))
    ensures TagsIn(Obj(InsertNested(p, app, key, v)), Obj(InsertNested(q, app, key, v)))
    ensures (TagAt(p, app, key).Some? ==> TagAt(p, app, key).value == v) ==>
            TagsIn(Obj(p), Obj(InsertNested(q, app, key, v)))
  {
    forall a, k
      ensures TagAt(InsertNested(q, app, key, v), a, k) == if a == app && k == key then Some(v) else TagAt(q, a, k)
    {
      InsertNestedAt(q, app, key, v, a, k);
    }
  }

  lemma AsHeldInserted(buffer: map<string, Value>, s: State, s': State, app: string, key: string, v: Value)
    requires AsHeld(buffer, s) && NoEmptyApp(buffer) && s.tagValues.Obj? && s'.tagValues.Obj?
    requires s'.tagValues == Obj(InsertNested(s.tagValues.m, app, key, v))
             || (s'.tagValues == s.tagValues && Current(s, app, key) == v)
    ensures AsHeld(InsertNested(buffer, app, key, v), s') && NoEmptyApp(InsertNested(buffer, app, key, v))
  {
    var next := InsertNested(buffer, app, key, v);
    forall a | a in next ensures next[a].Obj? && next[a] != EMPTY {
      assert key in next[app].m;
    }
    forall a, k | a in next && k in next[a].m ensures Current(s', a, k) == next[a].m[k] {
      InsertNestedAt(s.tagValues.m, app, key, v, a, k);
      InsertNestedAt(buffer, app, key, v, a, k);
    }
  }

  lemma SetKeepsSideBySide(c: State, t: State, key: string, v: Value, opts: SetOptions)
    requires SideBySide(c, t)
    ensures SideBySide(SetTag(c, key, v, opts), SetTag(t, key, v, opts))
  {
    var app := AppOf(c, opts);
    var c1 := c.(touched := InsertNested(c.touched, app, key, v));
    var t1 := t.(touched := InsertNested(t.touched, app, key, v));
    if Current(c, app, key) != v {
      ChangeKeepsSideBySide(c, t, c1, t1, app, key, v, opts.log);
    } else {
      ReassertKeepsSideBySide(c, t, c1, t1, app, key, v, opts.log);
    }
  }

  lemma ChangeKeepsSideBySide(c: State, t: State, c1: State, t1: State, app: string, key: string, v: Value, log: bool)
    requires SideBySide(c, t) && c1 == c.(touched := c1.touched)
             && t1 == t.(touched := InsertNested(t.touched, app, key, v))
    ensures SideBySide(Requested(Stored(c1, app, key, v), app, log), Requested(Stored(t1, app, key, v), app, log))
  {
    AsHeldInserted(t.touched, t, Requested(Stored(t1, app, key, v), app, log), app, key, v);
    TagsInInserted(c.dirty, t.touched, app, key, v);
    InsertedApps(c.dirty, app, key, v);
    InsertedApps(t.touched, app, key, v);
  }

  lemma InsertedApps(buffer: map<string, Value>, app: string, key: string, v: Value)
    ensures var next := InsertNested(buffer, app, key, v);
      next.Keys == buffer.Keys + {app} && next != map[] && (NoEmptyApp(buffer) ==> NoEmptyApp(next))
  {
    var next := InsertNested(buffer, app, key, v);
    assert key in next[app].m;
    assert app in next;
  }

  lemma ReassertKeepsSideBySide(c: State, t: State, c1: State, t1: State, app: string, key: string, v: Value, log: bool)
    requires SideBySide(c, t) && c1 == c.(touched := c1.touched)
             && t1 == t.(touched := InsertNested(t.touched, app, key, v))
    requires Current(c, app, key) == v
    ensures SideBySide(if log then Requested(c1, app, log) else c1, Requested(t1, app, log))
  {
    AsHeldInserted(t.touched, t, Requested(t1, app, log), app, key, v);
    if TagAt(c.dirty, app, key).Some? {
      assert TagAt(t.touched, app, key) == Some(c.dirty[app].m[key]);
      assert Current(t, app, key) == t.touched[app].m[key];
    }
    TagsInInserted(c.dirty, t.touched, app, key, v);
    InsertedApps(t.touched, app, key, v);
  }

  lemma CommitKeepsSideBySide(c: State, t: State, recordLog: bool)
    requires SideBySide(c, t)
    ensures SideBySide(Commit(c, recordLog, None).state, Commit(t, recordLog, None).state)
  {
    CommitClears(c, recordLog);
    CommitClears(t, recordLog);
    if t.dirty != map[] {
      var app :| app in c.dirty;
      DirtyIsTouched(c, t, app);
    }
  }

  lemma CommitClears(s: State, recordLog: bool)
    ensures var s' := Commit(s, recordLog, None).state;
      && s' == s'.(tagValues := s.tagValues, own := s.own, mode := s.mode, record := s.record, external := s.external)
      && !s'.updateTags
      && (s.updateTags ==> s'.dirty == map[] && s'.touched == map[])
      && (!s.updateTags ==> s' == s)
  {
  }

  predicate LogOrdered(changed: Option<Value>, set_: Option<Value>) {
    changed.Some? ==> set_.Some? && TagsIn(changed.value, set_.value)
  }

  // A log holds nothing but what memory holds, a missing tag read as null.
  predicate LogHeld(log: Option<Value>, s: State) {
    log.Some? ==> log.value.Obj? && AsHeld(log.value.m, s)
  }

  /** Over any run from the same seed in a mode fixed from the start, guarded or not: each
      commit reached in both modes logs no more in OnlyChanged than in OnlySet, and no more
      in OnlySet than memory holds at that commit. */
  lemma ModesAreOrdered(own: string, seed: Value, record: bool, aggregate: Value, ops: seq<Op>, recordLog: bool)
    requires forall op | op in ops :: !op.ChangeMode?
    ensures var c := Run(Fresh(own, seed, record, OnlyChanged, aggregate), ops);
      var t := Run(Fresh(own, seed, record, OnlySet, aggregate), ops);
      c.ok && t.ok ==>
        && LogOrdered(LogOf(c.state, recordLog), LogOf(t.state, recordLog))
        && LogHeld(LogOf(t.state, recordLog), t.state) && LogHeld(LogOf(c.state, recordLog), c.state)
  {
    var c0, t0 := Fresh(own, seed, record, OnlyChanged, aggregate), Fresh(own, seed, record, OnlySet, aggregate);
    RunsSideBySide(c0, t0, ops);
    var c, t := Run(c0, ops), Run(t0, ops);
    if c.ok && t.ok {
      LogsAreOrdered(c.state, t.state, recordLog);
    }
  }

  lemma {:induction false} RunsSideBySide(c: State, t: State, ops: seq<Op>)
    requires SideBySide(c, t) && forall op | op in ops :: !op.ChangeMode?
    ensures Run(c, ops).ok && Run(t, ops).ok ==> SideBySide(Run(c, ops).state, Run(t, ops).state)
    decreases |ops|
  {
    if ops != [] && Step(c, ops[0]).ok && Step(t, ops[0]).ok {
      assert ops[0] in ops;
      StepKeepsSideBySide(c, t, ops[0]);
      RunsSideBySide(Step(c, ops[0]).state, Step(t, ops[0]).state, ops[1..]);
    }
  }

  lemma StepKeepsSideBySide(c: State, t: State, op: Op)
    requires SideBySide(c, t) && !op.ChangeMode? && Step(c, op).ok && Step(t, op).ok
    ensures SideBySide(Step(c, op).state, Step(t, op).state)
  {
    match op
    case Set(key, v, opts) => SetKeepsSideBySide(c, t, key, v, opts);
    case CommitNow(recordLog, invoking) =>
      AllowedCommit(c, recordLog, invoking);
      AllowedCommit(t, recordLog, invoking);
      CommitKeepsSideBySide(c, t, recordLog);
  }

  // Nothing set since the last commit: nothing written, in any mode.
  lemma SecondCommitIsSilent(s: State, recordLog: bool, invoking: Option<string>, again: bool, from: Option<string>)
    ensures var once := Commit(s, recordLog, invoking).state;
      Commit(once, again, from) == Outcome(once, true)
    ensures s.mode == Never ==> Commit(s, recordLog, invoking).state.messages == s.messages
  {
  }
}
