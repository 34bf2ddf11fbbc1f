// What readers, subscribers and the agent can observe of the tag runtime: the two layers
// refine a plain store of a base and the writes over it.
module TagReads {
  import opened Json
  import opened Wrappers
  import opened Diff
  import opened DiffLaws
  import opened DiffRoundTrip
  import opened KeyPaths
  import opened Triggers
  import opened TagsRuntime
  import opened TagRuns

  // ---- the store a reader may believe in ----

  // A base that a channel sync replaces, and the writes laid over it. Publishing moves
  // the writes into the base, if some of them are still owed to the agent.
  datatype Store = Store(base: Value, over: seq<Value>, owed: bool)

  function Contents(st: Store): Value {
    MergeAll(st.base, st.over)
  }

  function StoreStep(st: Store, op: Op, accepted: bool): Store {
    match op
    case Publish(_) => if st.owed then Store(Contents(st), [], false) else st
    case Sync(data) => st.(base := data.GetOr(EMPTY))
    case Register(_, _, _) => st
    case _ => if accepted then st.(over := st.over + [WriteOf(op)], owed := !op.opts.flush) else st
  }

  function StoreRun(st: Store, s: State, ops: seq<Op>, interval: int): Store
    requires WellFormed(s)
    decreases |ops|
  {
    if ops == [] then st
    else StoreRun(StoreStep(st, ops[0], Writes(s, ops[0])), Step(s, ops[0], interval), ops[1..], interval)
  }

  predicate Tracks(s: State, st: Store) {
    && s.cache.Obj? && st.base.Obj? && (forall w | w in st.over :: w.Obj?)
    && s.pending == MergeAll(EMPTY, st.over)
    && s.dirty == st.owed
    && Denull(View(s)) == Denull(Contents(st))
  }

  // What an operation has to meet at the moment it is carried out: an accepted write can
  // be regrouped with cache and overlay, and a synced base with the writes laid over it.
  predicate Regroups(s: State, st: Store, op: Op) {
    match op
    case Publish(_) => true
    case Register(_, _, _) => true
    case Sync(data) => data.GetOr(EMPTY).Obj? && Resyncs(data.GetOr(EMPTY), st.over)
    case _ => Writes(s, op) ==> WriteOf(op).Obj? && Associates(s.cache, s.pending, WriteOf(op))
  }

  // What each write holds at `k`, of those that hold anything there.
  function Project(writes: seq<Value>, k: string): (at: seq<Value>)
    requires forall w | w in writes :: w.Obj?
  {
    if writes == [] then []
    else
      var last := writes[|writes| - 1];
      Project(writes[..|writes| - 1], k) + if k in last.m then [last.m[k]] else []
  }

  predicate AllGroups(writes: seq<Value>) {
    forall w | w in writes :: w.Obj?
  }

  // A base and the writes over it can be regrouped: once a plain value was written, nothing
  // the base holds is left to come back.
  predicate Resyncs(base: Value, writes: seq<Value>) {
    base.Obj? ==>
      if AllGroups(writes) then forall k | k in base.m :: Resyncs(base.m[k], Project(writes, k))
      else Covered(base, MergeAll(EMPTY, writes))
  }

  predicate RunRegroups(s: State, st: Store, ops: seq<Op>, interval: int)
    requires WellFormed(s)
    decreases |ops|
  {
    ops != [] ==>
      && Regroups(s, st, ops[0])
      && RunRegroups(Step(s, ops[0], interval), StoreStep(st, ops[0], Writes(s, ops[0])), ops[1..], interval)
  }

  lemma DenullCongruence(a: Value, b: Value, w: Value)
    requires Denull(a) == Denull(b)
    ensures Denull(Merge(a, w)) == Denull(Merge(b, w))
  {
    DenullMerge(a, w);
    DenullMerge(b, w);
  }

  // What merging leaves at one key is the merge of what is written there.
  lemma {:induction false} MergeAllAt(base: Value, writes: seq<Value>, k: string)
    requires base.Obj? && AllGroups(writes)
    ensures var r := MergeAll(base, writes);
      && r.Obj? && (k in r.m <==> k in base.m || Project(writes, k) != [])
      && (k in r.m ==> r.m[k] == MergeAll(Child(base, k), Project(writes, k)))
  {
    if writes != [] {
      var n := |writes| - 1;
      MergeAllAt(base, writes[..n], k);
      MergeAt(MergeAll(base, writes[..n]), writes[n], k);
      if k in writes[n].m {
        ProjectedLast(Child(base, k), Project(writes[..n], k), writes[n].m[k]);
      } else {
        assert Project(writes, k) == Project(writes[..n], k);
      }
    }
  }

  lemma ProjectedLast(base: Value, at: seq<Value>, w: Value)
    ensures MergeAll(base, at + [w]) == Merge(MergeAll(base, at), w) && Merge(EMPTY, w) == w
  {
    MergeAllAppend(base, at, w);
    if w.Obj? {
      MergeOntoEmpty(w);
    }
  }

  // A plain write makes the base irrelevant.
  lemma {:induction false} PlainForgets(base: Value, writes: seq<Value>)
    requires !AllGroups(writes) || (!base.Obj? && writes != [])
    ensures MergeAll(base, writes) == MergeAll(EMPTY, writes)
  {
    var n := |writes| - 1;
    if writes[n].Obj? {
      if n > 0 {
        if AllGroups(writes[..n]) {
          assert writes == writes[..n] + [writes[n]];
        }
        PlainForgets(base, writes[..n]);
      } else {
        MergeOntoEmpty(writes[n]);
      }
    }
  }

  lemma {:induction false} ResyncsNothing(base: Value)
    ensures Resyncs(base, [])
  {
    if base.Obj? {
      forall k | k in base.m ensures Resyncs(base.m[k], Project([], k)) {
        ResyncsNothing(base.m[k]);
      }
    }
  }

  // Writing over a base and merging the writes first come to the same exactly under `Resyncs`.
  lemma {:induction false} ResyncsExactly(base: Value, writes: seq<Value>)
    requires writes != []
    ensures MergeAll(base, writes) == Merge(base, MergeAll(EMPTY, writes)) <==> Resyncs(base, writes)
    decreases base, 1
  {
    if !base.Obj? || !AllGroups(writes) {
      PlainForgets(base, writes);
      CoveredIsOverwritten(base, MergeAll(EMPTY, writes));
    } else {
      var l, r := MergeAll(base, writes), Merge(base, MergeAll(EMPTY, writes));
      MergeAllObjects(base, writes);
      MergeAllObjects(EMPTY, writes);
      forall k ensures SameAt(l.m, r.m, k) <==> (k in base.m ==> Resyncs(base.m[k], Project(writes, k))) {
        ResyncsAt(base, writes, k);
      }
      if Resyncs(base, writes) {
        SameEverywhere(l.m, r.m);
      }
      if l == r {
        forall k | k in base.m ensures Resyncs(base.m[k], Project(writes, k)) {
          assert SameAt(l.m, r.m, k);
        }
      }
    }
  }

  lemma {:induction false} ResyncsAt(base: Value, writes: seq<Value>, k: string)
    requires base.Obj? && AllGroups(writes) && MergeAll(base, writes).Obj? && MergeAll(EMPTY, writes).Obj?
    ensures SameAt(MergeAll(base, writes).m, Merge(base, MergeAll(EMPTY, writes)).m, k) <==>
            (k in base.m ==> Resyncs(base.m[k], Project(writes, k)))
    decreases base, 0
  {
    MergeAllAt(base, writes, k);
    MergeAllAt(EMPTY, writes, k);
    MergeAt(base, MergeAll(EMPTY, writes), k);
    if k in base.m {
      if Project(writes, k) == [] {
        ResyncsNothing(base.m[k]);
      } else {
        ResyncsExactly(base.m[k], Project(writes, k));
      }
    }
  }

  lemma CommitReads(s: State, now: int, interval: int)
    ensures var s' := Commit(s, now, interval, ACCEPTING).state;
      && s'.cache == (if s.dirty then ApplyDiff(s.cache, s.pending, true) else s.cache)
      && s'.pending == (if s.dirty then EMPTY else s.pending)
      && !s'.dirty && s'.triggers == s.triggers
  {
  }

  // A commit is the identity for a reader who takes a null for a missing key.
  lemma CommitKeepsView(s: State, now: int, interval: int)
    requires s.cache.Obj? && s.pending.Obj?
    ensures Denull(View(Commit(s, now, interval, ACCEPTING).state)) == Denull(View(s))
  {
    CommitReads(s, now, interval);
    if s.dirty {
      DeletingReadsAsNull(s.cache, s.pending);
      MergeEmpty(ApplyDiff(s.cache, s.pending, true));
    }
  }

  lemma PublishTracks(s: State, st: Store, now: int, interval: int)
    requires Tracks(s, st)
    ensures Tracks(Commit(s, now, interval, ACCEPTING).state, StoreStep(st, Publish(now), false))
  {
    MergeAllObjects(EMPTY, st.over);
    MergeAllObjects(st.base, st.over);
    CommitReads(s, now, interval);
    CommitKeepsView(s, now, interval);
  }

  /** A sync under the writes laid over it reads as the plain store's exactly when they can
      be regrouped with it. */
  lemma SyncReadsExactly(s: State, st: Store, data: Value)
    requires Tracks(s, st) && data.Obj?
    ensures View(Synced(s, Some(data))) == Contents(StoreStep(st, Sync(Some(data)), false)) <==> Resyncs(data, st.over)
  {
    if st.over == [] {
      MergeEmpty(data);
      ResyncsNothing(data);
    } else {
      ResyncsExactly(data, st.over);
    }
  }

  lemma SyncTracks(s: State, st: Store, data: Option<Value>)
    requires Tracks(s, st) && Regroups(s, st, Sync(data))
    ensures Tracks(Synced(s, data), StoreStep(st, Sync(data), false))
  {
    SyncReadsExactly(s, st, data.GetOr(EMPTY));
  }

  lemma SetTracks(s: State, st: Store, tags: Value, opts: SetOptions)
    requires Tracks(s, st) && (Accepts(s, tags, opts) ==> tags.Obj? && Associates(s.cache, s.pending, tags))
    ensures Tracks(SetNested(s, tags, opts, true).state,
                   if Accepts(s, tags, opts) then st.(over := st.over + [tags], owed := !opts.flush) else st)
  {
    if Accepts(s, tags, opts) {
      MergeAllObjects(EMPTY, st.over);
      MergeAllAppend(EMPTY, st.over, tags);
      SetReads(s, st, tags, opts);
      SetLeaves(s, tags, opts);
    }
  }

  lemma SetReads(s: State, st: Store, tags: Value, opts: SetOptions)
    requires Denull(View(s)) == Denull(Contents(st)) && Accepts(s, tags, opts)
    requires Associates(s.cache, s.pending, tags)
    ensures Denull(View(SetNested(s, tags, opts, true).state)) == Denull(MergeAll(st.base, st.over + [tags]))
  {
    MergeAllAppend(st.base, st.over, tags);
    SetReadsAsMergeExactly(s, tags, opts);
    DenullCongruence(View(s), Contents(st), tags);
  }

  // What an accepted write leaves in the two layers.
  lemma SetLeaves(s: State, tags: Value, opts: SetOptions)
    requires Accepts(s, tags, opts)
    ensures var s' := SetNested(s, tags, opts, true).state;
      && s'.pending == Merge(s.pending, tags)
      && s'.cache == (if opts.flush then ApplyDiff(s.cache, s'.pending, true) else s.cache)
      && s'.dirty == !opts.flush && s'.triggers == s.triggers
  {
  }

  lemma StepTracks(s: State, st: Store, op: Op, interval: int)
    requires WellFormed(s) && Tracks(s, st) && Regroups(s, st, op)
    ensures Tracks(Step(s, op, interval), StoreStep(st, op, Writes(s, op)))
  {
    match op
    case SetOne(path, value, opts) =>
      var e := Evaluated(s, path, value);
      SetTracks(e, st, WriteOf(op), opts.(log := opts.log || Fires(s, path, value)));
    case SetMany(tags, opts) => SetTracks(s, st, tags, opts);
    case Publish(now) => PublishTracks(s, st, now, interval);
    case Sync(data) => SyncTracks(s, st, data);
    case Register(_, _, _) =>
  }

  /** Two-layer cache refinement: whatever is set, published and synced, a reader sees
      the plain store, with a null read as missing. */
  lemma {:induction false} RunRefines(s: State, st: Store, ops: seq<Op>, interval: int)
    requires WellFormed(s) && Tracks(s, st) && RunRegroups(s, st, ops, interval)
    ensures Tracks(Run(s, ops, interval), StoreRun(st, s, ops, interval))
    ensures Denull(View(Run(s, ops, interval))) == Denull(Contents(StoreRun(st, s, ops, interval)))
    decreases |ops|
  {
    if ops != [] {
      StepTracks(s, st, ops[0], interval);
      RunRefines(Step(s, ops[0], interval), StoreStep(st, ops[0], Writes(s, ops[0])), ops[1..], interval);
    }
  }

  // ---- runs that agree on a layout ----

  predicate OpFits(op: Op, layout: Value) {
    WriteFits(op, layout) && (op.Sync? ==> Fits(op.data.GetOr(EMPTY), layout))
  }

  predicate Layered(s: State, layout: Value) {
    Fits(s.cache, layout) && Fits(s.pending, layout)
  }

  lemma SetFits(s: State, tags: Value, opts: SetOptions, layout: Value)
    requires Layered(s, layout) && Fits(tags, layout)
    ensures Layered(SetNested(s, tags, opts, true).state, layout)
  {
    ApplyFits(s.pending, tags, false, layout);
    ApplyFits(s.cache, Merge(s.pending, tags), true, layout);
  }

  lemma StepFits(s: State, op: Op, interval: int, layout: Value)
    requires WellFormed(s) && layout.Obj? && Layered(s, layout) && OpFits(op, layout)
    ensures Layered(Step(s, op, interval), layout)
  {
    match op
    case SetOne(path, value, opts) =>
      SetFits(Evaluated(s, path, value), WriteOf(op), opts.(log := opts.log || Fires(s, path, value)), layout);
    case SetMany(tags, opts) => SetFits(s, tags, opts, layout);
    case Publish(now) =>
      CommitReads(s, now, interval);
      ApplyFits(s.cache, s.pending, true, layout);
    case _ =>
  }

  lemma {:induction false} FitsResyncs(base: Value, writes: seq<Value>, layout: Value)
    requires layout.Obj? && Fits(base, layout) && forall w | w in writes :: Fits(w, layout)
    ensures MergeAll(base, writes) == Merge(base, MergeAll(EMPTY, writes))
    ensures Resyncs(base, writes)
  {
    if writes == [] {
      MergeEmpty(base);
      ResyncsNothing(base);
    } else {
      var n := |writes| - 1;
      FitsResyncs(base, writes[..n], layout);
      MergeAllFits(EMPTY, writes[..n], layout);
      FitsAssociates(base, MergeAll(EMPTY, writes[..n]), writes[n], layout);
      AssociativityIsExact(base, MergeAll(EMPTY, writes[..n]), writes[n]);
      ResyncsExactly(base, writes);
    }
  }

  lemma FitsRegroups(s: State, st: Store, op: Op, layout: Value)
    requires layout.Obj? && Layered(s, layout) && OpFits(op, layout) && forall w | w in st.over :: Fits(w, layout)
    ensures Regroups(s, st, op)
  {
    if IsSet(op) {
      FitsAssociates(s.cache, s.pending, WriteOf(op), layout);
    } else if op.Sync? {
      FitsResyncs(op.data.GetOr(EMPTY), st.over, layout);
    }
  }

  /** Writes and syncs that agree on one layout meet the condition at every step. */
  lemma {:induction false} LayoutRegroups(s: State, st: Store, ops: seq<Op>, interval: int, layout: Value)
    requires WellFormed(s) && layout.Obj? && Layered(s, layout) && forall w | w in st.over :: Fits(w, layout)
    requires forall op | op in ops :: OpFits(op, layout)
    ensures RunRegroups(s, st, ops, interval)
    decreases |ops|
  {
    if ops != [] {
      assert OpFits(ops[0], layout);
      FitsRegroups(s, st, ops[0], layout);
      StepFits(s, ops[0], interval, layout);
      LayoutRegroups(Step(s, ops[0], interval), StoreStep(st, ops[0], Writes(s, ops[0])), ops[1..], interval, layout);
    }
  }

  // From the start, then, nothing but the common layout is needed.
  lemma LayoutRefines(ops: seq<Op>, interval: int, layout: Value)
    requires layout.Obj? && forall op | op in ops :: OpFits(op, layout)
    ensures Denull(View(Run(INITIAL, ops, interval))) ==
            Denull(Contents(StoreRun(Store(EMPTY, [], false), INITIAL, ops, interval)))
  {
    MergeEmpty(EMPTY);
    LayoutRegroups(INITIAL, Store(EMPTY, [], false), ops, interval, layout);
    RunRefines(INITIAL, Store(EMPTY, [], false), ops, interval);
  }

  // ---- one write ----

  // Outside a layout, one accepted write reads back as a plain merge exactly when
  // cache, pending writes and write can be regrouped.
  lemma SetReadsAsMergeExactly(s: State, tags: Value, opts: SetOptions)
    requires Accepts(s, tags, opts)
    ensures View(SetNested(s, tags, opts, true).state) == Merge(View(s), tags) <==> Associates(s.cache, s.pending, tags)
  {
    AssociativityIsExact(s.cache, s.pending, tags);
    OverlayAfterPublish(s.cache, Merge(s.pending, tags));
  }

  /** A write skipped by `only_if_changed` would have changed nothing, but how a number is
      written and which empty groups exist, exactly unless it puts `{}` in a plain value's
      place. */
  lemma SkippedWriteChangesNothing(s: State, tags: Value, opts: SetOptions)
    requires View(s).Obj? && tags.Obj? && !Accepts(s, tags, opts)
    ensures Firm(Merge(View(s), tags)) == Firm(View(s)) <==> !Flattens(View(s), tags)
  {
    EmptyDiffMeansNoChange(View(s), tags);
  }

  // Within a layout no write does.
  lemma {:induction false} FitsNeverFlattens(was: Value, now: Value, layout: Value)
    requires Fits(was, layout) && Fits(now, layout)
    ensures !Flattens(was, now)
    decreases now
  {
    if was.Obj? && now.Obj? {
      forall k | k in now.m ensures !FlattensAt(was, now, k) {
        if k in was.m && was.m[k].Obj? {
          FitsNeverFlattens(was.m[k], now.m[k], layout.m[k]);
        }
      }
    }
  }

  // ---- single tags ----

  predicate Plain(v: Value) {
    !v.Obj?
  }

  // What `over` leaves of a value that may be missing.
  function Overlaid(under: Option<Value>, over: Value): Value {
    if under.Some? then Merge(under.value, over) else over
  }

  lemma {:induction false} LookupMerged(path: seq<string>, a: Value, b: Value)
    requires Lookup(path, b).Some?
    ensures Lookup(path, Merge(a, b)) == Some(Overlaid(Lookup(path, a), Lookup(path, b).value))
  {
    if path != [] && a.Obj? {
      MergeAt(a, b, path[0]);
      if path[0] in a.m {
        LookupMerged(path[1..], a.m[path[0]], b.m[path[0]]);
      }
    }
  }

  // Setting a plain value is skipped exactly when the tag already holds an equal one.
  lemma {:induction false} SingleSetIsSkippedExactly(path: seq<string>, view: Value, value: Value)
    requires path != [] && Plain(value)
    ensures IsEmptyObject(GenerateDiff(view, Construct(path, value), false))
            <==> Lookup(path, view).Some? && PyEq(Lookup(path, view).value, value)
  {
    var k, rest, w := path[0], path[1..], Construct(path, value);
    assert w == Single(k, Construct(rest, value));
    if view.Obj? {
      var d := GenerateDiff(view, w, false);
      forall j | j in d.m ensures j == k {
        GeneratedAt(view, w, j, false);
      }
      GeneratedAt(view, w, k, false);
      assert IsEmptyObject(d) <==> k !in d.m;
      if rest != [] {
        SingleSetIsSkippedExactly(rest, Child(view, k), value);
        assert Lookup(path, view) == Lookup(rest, Child(view, k));
      } else {
        assert Lookup(path, view) == if k in view.m then Some(view.m[k]) else None;
      }
    } else {
      assert GenerateDiff(view, w, false) == w && k in w.m;
    }
  }

  // A tag's value, once set, covers what a layer held at its path.
  predicate CoversAt(path: seq<string>, layer: Value, value: Value) {
    var held := Lookup(path, layer);
    held.Some? ==> Covered(held.value, value)
  }

  /** Read your writes: an accepted value reads back exactly when it covers what the cache
      and the overlay hold for the tag, as every plain value does; and a plain value reads
      back, up to number representation, even when the write is skipped. */
  lemma ReadYourWrite(s: State, path: seq<string>, value: Value, opts: SetOptions, sendOk: bool)
    requires WellFormed(s) && path != []
    ensures var read := Lookup(path, View(SetTag(s, path, value, opts, sendOk).state));
      && (Accepts(s, Construct(path, value), opts) ==>
            read.Some? && (read.value == value <==> CoversAt(path, s.pending, value) && CoversAt(path, s.cache, value)))
      && (Plain(value) ==> read.Some? && PyEq(read.value, value))
  {
    if Accepts(s, Construct(path, value), opts) {
      AcceptedRead(s, path, value, opts, sendOk);
      PyEqIsNormEquality(value, value);
    } else if Plain(value) {
      SingleSetIsSkippedExactly(path, View(s), value);
    }
  }

  lemma AcceptedRead(s: State, path: seq<string>, value: Value, opts: SetOptions, sendOk: bool)
    requires WellFormed(s) && path != [] && Accepts(s, Construct(path, value), opts)
    ensures var read := Lookup(path, View(SetTag(s, path, value, opts, sendOk).state));
      read.Some? && (read.value == value <==> CoversAt(path, s.pending, value) && CoversAt(path, s.cache, value))
  {
    var w := Construct(path, value);
    var over := Merge(s.pending, w);
    LookupConstruct(path, value);
    LookupMerged(path, s.pending, w);
    LookupMerged(path, s.cache, over);
    OverlayAfterPublish(s.cache, over);
    assert View(SetTag(s, path, value, opts, sendOk).state) == Merge(s.cache, over);
    var p, c := Lookup(path, s.pending), Lookup(path, s.cache);
    CoversBothExactly(c.GetOr(value), p.GetOr(value), value);
    MergeIdempotent(value);
    CoveredIsOverwritten(value, value);
    CoveredIsOverwritten(c.GetOr(value), value);
    CoveredIsOverwritten(p.GetOr(value), value);
  }

  // ---- syncs under an overlay ----

  // Every path of `over` is in `v`, with the same leaf.
  predicate Agrees(over: Value, v: Value) {
    if over.Obj? && v.Obj? then forall k | k in over.m :: k in v.m && Agrees(over.m[k], v.m[k]) else over == v
  }

  lemma {:induction false} AgreeingOverlayIsInvisible(v: Value, over: Value)
    ensures Merge(v, over) == v <==> Agrees(over, v)
  {
    if v.Obj? && over.Obj? {
      forall k
        ensures k in over.m ==> (k in Merge(v, over).m)
        ensures k in over.m && k in v.m ==>
                  Merge(v, over).m[k] == Merge(v.m[k], over.m[k])
                  && (Merge(v.m[k], over.m[k]) == v.m[k] <==> Agrees(over.m[k], v.m[k]))
      {
        MergeAt(v, over, k);
        if k in over.m && k in v.m {
          AgreeingOverlayIsInvisible(v.m[k], over.m[k]);
        }
      }
      if Agrees(over, v) {
        assert Merge(v, over).m == v.m;
      }
    }
  }

  /** After a commit, a sync is seen as it is exactly when the commit had something to
      publish, or the overlay it left behind says nothing else. */
  lemma SyncIsSeenExactly(s: State, now: int, interval: int, data: Value)
    requires data.Obj?
    ensures var s' := Synced(Commit(s, now, interval, ACCEPTING).state, Some(data));
      View(s') == data <==> s.dirty || Agrees(s.pending, data)
  {
    CommitReads(s, now, interval);
    MergeEmpty(data);
    AgreeingOverlayIsInvisible(data, s.pending);
  }

  // The same for one tag, whatever the others hold.
  lemma SyncedTagIsSeenExactly(s: State, path: seq<string>, now: int, interval: int, data: Value)
    requires path != [] && Slotted(path, s.pending) && Slotted(path, data)
    ensures var s' := Synced(Commit(s, now, interval, ACCEPTING).state, Some(data));
      Lookup(path, View(s')) == Lookup(path, data) <==>
      s.dirty || Lookup(path, s.pending).None? || Lookup(path, s.pending) == Lookup(path, data)
  {
    CommitReads(s, now, interval);
    MergeEmpty(data);
    SlotMerge(path, data, s.pending);
  }

  /** A write sent with `flush` is such an overlay: it stays after it is published, commits
      leave it there, and it hides whatever a later sync says about the tag. */
  lemma FlushedWriteMasksLaterSync(
    s: State, path: seq<string>, value: Value, opts: SetOptions, now: int, interval: int, data: Option<Value>)
    requires WellFormed(s) && path != [] && Plain(value)
    requires opts.flush && Accepts(s, Construct(path, value), opts)
    ensures var s1 := SetTag(s, path, value, opts, true).state;
      var s2 := Synced(Commit(s1, now, interval, ACCEPTING).state, data);
      !s1.dirty && Lookup(path, View(s2)) == Some(value)
  {
    var w := Construct(path, value);
    var s1 := SetTag(s, path, value, opts, true).state;
    LookupConstruct(path, value);
    LookupMerged(path, s.pending, w);
    CommitReads(s1, now, interval);
    LookupMerged(path, data.GetOr(EMPTY), Merge(s.pending, w));
  }

  // ---- the agent ----

  // A step either publishes nothing or publishes a diff it also applies to the cache.
  predicate PublishesWhatItApplies(s: State, s': State) {
    (s'.published == s.published && s'.cache == s.cache) ||
    (|s'.published| == |s.published| + 1 && s'.published[..|s.published|] == s.published &&
     s'.cache == ApplyDiff(s.cache, s'.published[|s.published|], true))
  }

  lemma SetPublishes(s: State, tags: Value, opts: SetOptions)
    ensures PublishesWhatItApplies(s, SetNested(s, tags, opts, true).state)
  {
  }

  lemma CommitPublishes(s: State, now: int, interval: int)
    ensures PublishesWhatItApplies(s, Commit(s, now, interval, ACCEPTING).state)
  {
    CommitShape(s, now, interval);
  }

  lemma PublishedStep(s: State, op: Op, interval: int, base: Value)
    requires WellFormed(s) && !op.Sync? && Denull(MergeAll(base, s.published)) == Denull(s.cache)
    ensures var s' := Step(s, op, interval); Denull(MergeAll(base, s'.published)) == Denull(s'.cache)
  {
    var s' := Step(s, op, interval);
    match op {
      case SetOne(path, value, opts) =>
        SetPublishes(Evaluated(s, path, value), WriteOf(op), opts.(log := opts.log || Fires(s, path, value)));
      case SetMany(tags, opts) => SetPublishes(s, tags, opts);
      case Publish(now) => CommitPublishes(s, now, interval);
      case _ =>
    }
    assert PublishesWhatItApplies(s, s');
    if s'.published != s.published {
      PublishKeepsReading(s, s', base);
    }
  }

  lemma PublishKeepsReading(s: State, s': State, base: Value)
    requires PublishesWhatItApplies(s, s') && s'.published != s.published
    requires Denull(MergeAll(base, s.published)) == Denull(s.cache)
    ensures Denull(MergeAll(base, s'.published)) == Denull(s'.cache)
  {
    var p := s'.published[|s.published|];
    assert s'.published == s.published + [p];
    MergeAllAppend(base, s.published, p);
    DenullCongruence(MergeAll(base, s.published), s.cache, p);
    DeletingReadsAsNull(s.cache, p);
  }

  /** An agent that merges what is published holds what the cache holds, a null read as
      missing, for any tags and any mix of buffered and flushed writes. */
  lemma {:induction false} AgentFollowsCache(s: State, ops: seq<Op>, interval: int, base: Value)
    requires WellFormed(s) && Denull(MergeAll(base, s.published)) == Denull(s.cache)
    requires forall op | op in ops :: !op.Sync?
    ensures var s' := Run(s, ops, interval); Denull(MergeAll(base, s'.published)) == Denull(s'.cache)
    decreases |ops|
  {
    if ops != [] {
      assert ops[0] in ops;
      PublishedStep(s, ops[0], interval, base);
      AgentFollowsCache(Step(s, ops[0], interval), ops[1..], interval, base);
    }
  }

  // ---- the periodic log ----

  // One step: a due commit sends the bucket and stamps the time, nothing else touches it.
  lemma PeriodicStep(s: State, op: Op, interval: int)
    requires WellFormed(s)
    ensures var s' := Step(s, op, interval);
      if op.Publish? && PeriodicDue(s, op.now, interval)
      then s'.log == EMPTY && s'.lastFlush == Some(op.now)
           && s'.messages != [] && s'.messages[|s'.messages| - 1] == s.log
      else s'.lastFlush == s.lastFlush && (op.Publish? ==> s'.log == s.log && !PeriodicDue(s', op.now, interval))
  {
    if op.Publish? {
      CommitShape(s, op.now, interval);
    }
  }

  // When the periodic log goes out in a run.
  function PeriodicFlushes(s: State, ops: seq<Op>, interval: int): seq<int>
    requires WellFormed(s)
    decreases |ops|
  {
    if ops == [] then []
    else
      (if ops[0].Publish? && PeriodicDue(s, ops[0].now, interval) then [ops[0].now] else [])
      + PeriodicFlushes(Step(s, ops[0], interval), ops[1..], interval)
  }

  // Each time is at least `interval` after the one before, the first one after `last`.
  predicate Apart(last: Option<int>, times: seq<int>, interval: int)
    decreases |times|
  {
    times != [] ==>
      (last.Some? ==> times[0] - last.value >= interval) && Apart(Some(times[0]), times[1..], interval)
  }

  /** Over any run, periodic logs go out at least the log interval apart, counted from the
      last one before the run. */
  lemma {:induction false} PeriodicLogsKeepTime(s: State, ops: seq<Op>, interval: int)
    requires WellFormed(s)
    ensures Apart(s.lastFlush, PeriodicFlushes(s, ops, interval), interval)
    decreases |ops|
  {
    if ops != [] {
      PeriodicStep(s, ops[0], interval);
      var later := PeriodicFlushes(Step(s, ops[0], interval), ops[1..], interval);
      PeriodicLogsKeepTime(Step(s, ops[0], interval), ops[1..], interval);
      if ops[0].Publish? && PeriodicDue(s, ops[0].now, interval) {
        assert ([ops[0].now] + later)[1..] == later;
      } else {
        assert PeriodicFlushes(s, ops, interval) == later;
      }
    }
  }

  // ---- subscribers ----

  // What a diff says about a plain tag: its new value if that changed, and nothing if the
  // tag vanished.
  lemma {:induction false} DiffAtTag(path: seq<string>, was: Value, now: Value)
    requires path != []
    ensures var found := Lookup(path, GenerateDiff(was, now, false));
      match Lookup(path, now)
      case None => found.None?
      case Some(v) => Plain(v) ==>
        if Lookup(path, was).Some? && PyEq(Lookup(path, was).value, v) then found.None? else found == Some(v)
    decreases |path|
  {
    if was.Obj? && now.Obj? {
      var k, rest := path[0], path[1..];
      var d := GenerateDiff(was, now, false);
      GeneratedAt(was, now, k, false);
      if k in now.m {
        assert Lookup(path, now) == Lookup(rest, now.m[k]);
        assert Lookup(path, was) == if k in was.m then Lookup(rest, was.m[k]) else None;
        assert Lookup(path, d) == if k in d.m then Lookup(rest, d.m[k]) else None;
        if rest != [] {
          DiffAtTag(rest, Child(was, k), now.m[k]);
        }
      }
    }
  }

  // A tag is worth a call when it is there, with another value than before.
  predicate Changes(path: seq<string>, was: Value, now: Value) {
    Lookup(path, now).Some? &&
    !(Lookup(path, was).Some? && PyEq(Lookup(path, was).value, Lookup(path, now).value))
  }

  /** An update calls each subscriber of a plain tag once if the tag changed, with the new
      value, and not at all otherwise; a tag that vanished is never reported. */
  lemma SubscriberCalledExactly(s: State, data: Value, subscriptions: seq<seq<string>>, path: seq<string>, v: Value)
    requires path != [] && Plain(Lookup(path, data).GetOr(Null))
    ensures multiset(Notifications(s, data, subscriptions))[Call(path, v)] ==
            if Changes(path, s.cache, data) && Lookup(path, data) == Some(v) then multiset(subscriptions)[path] else 0
  {
    var diff := GenerateDiff(s.cache, data, false);
    DiffAtTag(path, s.cache, data);
    CallsAreCounted(subscriptions, diff, path, v);
    if IsEmptyObject(diff) {
      assert Lookup(path, diff).None?;
    }
  }

  lemma {:induction false} CallsAreCounted(subscriptions: seq<seq<string>>, diff: Value, path: seq<string>, v: Value)
    ensures multiset(CallsFor(subscriptions, diff))[Call(path, v)] ==
            if Lookup(path, diff) == Some(v) then multiset(subscriptions)[path] else 0
  {
    if subscriptions != [] {
      var n := |subscriptions| - 1;
      CallsAreCounted(subscriptions[..n], diff, path, v);
      assert subscriptions == subscriptions[..n] + [subscriptions[n]];
    }
  }
}
