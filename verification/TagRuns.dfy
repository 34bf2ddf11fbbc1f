// Whole runs of the tag runtime: nothing accepted is lost on its way to the log.
module TagRuns {
  import opened Json
  import opened Wrappers
  import opened Diff
  import opened DiffLaws
  import opened KeyPaths
  import opened Triggers
  import opened TagsRuntime

  // A failed call ends a run (the application restarts), so every call here succeeds.
  datatype Op =
    | SetOne(path: seq<string>, value: Value, opts: SetOptions)
    | SetMany(tags: Value, opts: SetOptions)
    | Publish(now: int)
    | Sync(data: Option<Value>)
    | Register(path: seq<string>, triggers: seq<LogTrigger>, default_: Option<Value>)

  const ACCEPTING := Agent(true, true, true)

  function Step(s: State, op: Op, interval: int): (s': State)
    requires WellFormed(s)
    ensures WellFormed(s')
  {
    match op
    case SetOne(path, value, opts) => SetTag(s, path, value, opts, true).state
    case SetMany(tags, opts) => SetNested(s, tags, opts, true).state
    case Publish(now) => Commit(s, now, interval, ACCEPTING).state
    case Sync(data) => Synced(s, data)
    case Register(path, triggers, default_) =>
      WithoutPathIsPart(s.triggers, path);
      Registered(s, path, triggers, default_)
  }

  function Run(s: State, ops: seq<Op>, interval: int): (s': State)
    requires WellFormed(s)
    ensures WellFormed(s')
    decreases |ops|
  {
    if ops == [] then s else Run(Step(s, ops[0], interval), ops[1..], interval)
  }

  predicate IsSet(op: Op) {
    op.SetOne? || op.SetMany?
  }

  function WriteOf(op: Op): Value
    requires IsSet(op)
  {
    match op
    case SetOne(path, value, _) => Construct(path, value)
    case SetMany(tags, _) => tags
  }

  predicate Writes(s: State, op: Op) {
    IsSet(op) && Accepts(s, WriteOf(op), op.opts)
  }

  function Written(s: State, op: Op): seq<Value> {
    if Writes(s, op) then [WriteOf(op)] else []
  }

  // The accepted writes of a run, in order.
  function Accepted(s: State, ops: seq<Op>, interval: int): seq<Value>
    requires WellFormed(s)
    decreases |ops|
  {
    if ops == [] then [] else Written(s, ops[0]) + Accepted(Step(s, ops[0], interval), ops[1..], interval)
  }

  function MergeAll(base: Value, writes: seq<Value>): Value {
    if writes == [] then base else Merge(MergeAll(base, writes[..|writes| - 1]), writes[|writes| - 1])
  }

  lemma MergeAllAppend(base: Value, writes: seq<Value>, w: Value)
    ensures MergeAll(base, writes + [w]) == Merge(MergeAll(base, writes), w)
  {
    assert (writes + [w])[..|writes|] == writes;
  }

  lemma {:induction false} MergeAllFits(base: Value, writes: seq<Value>, layout: Value)
    requires Fits(base, layout) && forall w | w in writes :: Fits(w, layout)
    ensures Fits(MergeAll(base, writes), layout)
  {
    if writes != [] {
      MergeAllFits(base, writes[..|writes| - 1], layout);
      ApplyFits(MergeAll(base, writes[..|writes| - 1]), writes[|writes| - 1], false, layout);
    }
  }

  lemma {:induction false} MergeAllObjects(base: Value, writes: seq<Value>)
    requires base.Obj? && forall w | w in writes :: w.Obj?
    ensures MergeAll(base, writes).Obj?
  {
    if writes != [] {
      MergeAllObjects(base, writes[..|writes| - 1]);
    }
  }

  // ---- a logged write, put ahead of the periodic bucket ----

  // When a logged write `w` may be put ahead of the periodic bucket `l`, into the immediate
  // bucket `i`, with `x` logged before: at every group `w` writes into, nothing that `x`
  // and `i` hold there is brought back by skipping a plain value in between.
  predicate LogRegroups(x: Value, i: Value, l: Value, w: Value)
    requires l.Obj? && w.Obj?
    decreases w, 1
  {
    if i.Obj? then forall k | k in w.m && w.m[k].Obj? :: LogRegroupsAt(x, i, l, w, k)
    else x.Obj? ==> Covered(x, Merge(l, w))
  }

  predicate LogRegroupsAt(x: Value, i: Value, l: Value, w: Value, k: string)
    requires i.Obj? && l.Obj? && w.Obj? && k in w.m && w.m[k].Obj?
    decreases w, 0
  {
    var xk := Child(AsObject(x), k);
    if k in l.m && !l.m[k].Obj? then Covered(xk, w.m[k]) && Covered(Child(i, k), w.m[k])
    else LogRegroups(xk, Child(i, k), Child(l, k), w.m[k])
  }

  // What is merged over a plain value or over nothing, if it is a group, replaces it.
  lemma EmptyIsAbsent(v: Value, w: Value)
    requires w.Obj?
    ensures Merge(EMPTY, w) == w && Merge(Merge(v, EMPTY), w) == Merge(v, w)
    ensures v.Obj? ==> Merge(v, EMPTY) == v
  {
    MergeOntoEmpty(w);
    if v.Obj? {
      MergeEmpty(v);
    }
  }

  // Putting a stripped bucket over the write never brings anything back.
  lemma {:induction false} StrippedAssociates(x: Value, l: Value, w: Value)
    requires l.Obj? && w.Obj?
    ensures Associates(x, w, StripPaths(l, w))
    decreases w
  {
    if x.Obj? {
      var s := StripPaths(l, w);
      forall k | k in x.m && k in w.m && k in s.m ensures Associates(x.m[k], w.m[k], s.m[k]) {
        StripAt(l, w, k);
        StrippedAssociates(x.m[k], l.m[k], w.m[k]);
      }
    }
  }

  lemma PlainImmediate(x: Value, i: Value, l: Value, w: Value)
    requires l.Obj? && w.Obj? && !i.Obj?
    ensures Merge(Merge(x, Merge(i, w)), StripPaths(l, w)) == Merge(Merge(Merge(x, i), l), w)
            <==> LogRegroups(x, i, l, w)
  {
    StripExchange(EMPTY, l, w);
    EmptyIsAbsent(EMPTY, l);
    EmptyIsAbsent(EMPTY, w);
    assert Merge(w, StripPaths(l, w)) == Merge(l, w);
    if x.Obj? {
      StrippedAssociates(x, l, w);
      AssociativityIsExact(x, w, StripPaths(l, w));
      CoveredIsOverwritten(x, Merge(l, w));
    }
  }

  // Logging a write at once, ahead of the periodic bucket, leaves the sum of the logs as
  // it is exactly under `LogRegroups`.
  lemma {:induction false} LoggedExchange(x: Value, i: Value, l: Value, w: Value)
    requires l.Obj? && w.Obj?
    ensures Merge(Merge(x, Merge(i, w)), StripPaths(l, w)) == Merge(Merge(Merge(x, i), l), w)
            <==> LogRegroups(x, i, l, w)
    decreases w, 2
  {
    if !i.Obj? {
      PlainImmediate(x, i, l, w);
    } else {
      EmptyIsAbsent(EMPTY, i);
      EmptyIsAbsent(EMPTY, Merge(i, w));
      var y := AsObject(x);
      var p, q := Merge(Merge(y, Merge(i, w)), StripPaths(l, w)), Merge(Merge(Merge(y, i), l), w);
      forall k ensures SameAt(p.m, q.m, k) <==> (k in w.m && w.m[k].Obj? ==> LogRegroupsAt(x, i, l, w, k)) {
        LoggedExchangeAt(x, i, l, w, k);
      }
      if LogRegroups(x, i, l, w) {
        SameEverywhere(p.m, q.m);
      }
      if p == q {
        forall k | k in w.m && w.m[k].Obj? ensures LogRegroupsAt(x, i, l, w, k) {
          assert SameAt(p.m, q.m, k);
        }
      }
    }
  }

  lemma {:induction false} LoggedExchangeAt(x: Value, i: Value, l: Value, w: Value, k: string)
    requires i.Obj? && l.Obj? && w.Obj?
    ensures var y := AsObject(x);
      SameAt(Merge(Merge(y, Merge(i, w)), StripPaths(l, w)).m, Merge(Merge(Merge(y, i), l), w).m, k)
      <==> (k in w.m && w.m[k].Obj? ==> LogRegroupsAt(x, i, l, w, k))
    decreases w, 1
  {
    var y := AsObject(x);
    if k in w.m && w.m[k].Obj? {
      GroupSent(y, i, l, w, k);
      GroupKept(y, i, l, w, k);
      if k in l.m && !l.m[k].Obj? {
        CoversBothExactly(Child(y, k), Child(i, k), w.m[k]);
      } else {
        LoggedExchange(Child(y, k), Child(i, k), Child(l, k), w.m[k]);
      }
    } else {
      MergeAt(i, w, k); MergeAt(y, Merge(i, w), k); MergeAt(Merge(y, Merge(i, w)), StripPaths(l, w), k);
      MergeAt(y, i, k); MergeAt(Merge(y, i), l, k); MergeAt(Merge(Merge(y, i), l), w, k);
      StripAt(l, w, k);
    }
  }

  // One group on either side of the exchange, a missing group read as an empty one.
  lemma GroupSent(y: Value, i: Value, l: Value, w: Value, k: string)
    requires y.Obj? && i.Obj? && l.Obj? && w.Obj? && k in w.m && w.m[k].Obj?
    ensures var p := Merge(Merge(y, Merge(i, w)), StripPaths(l, w));
      var sent := Merge(Child(y, k), Merge(Child(i, k), w.m[k]));
      k in p.m && p.m[k] == if k in l.m && !l.m[k].Obj? then sent else Merge(sent, StripPaths(Child(l, k), w.m[k]))
  {
    var wk := w.m[k];
    MergeAt(i, w, k); MergeAt(y, Merge(i, w), k); MergeAt(Merge(y, Merge(i, w)), StripPaths(l, w), k);
    StripAt(l, w, k);
    EmptyIsAbsent(EMPTY, wk);
    EmptyIsAbsent(EMPTY, Merge(Child(i, k), wk));
    var sent := Merge(Child(y, k), Merge(Child(i, k), wk));
    MergeEmpty(sent);
    assert StripPaths(EMPTY, wk) == EMPTY;
  }

  lemma GroupKept(y: Value, i: Value, l: Value, w: Value, k: string)
    requires y.Obj? && i.Obj? && l.Obj? && w.Obj? && k in w.m && w.m[k].Obj?
    ensures var q := Merge(Merge(Merge(y, i), l), w);
      k in q.m && q.m[k] ==
      if k in l.m && !l.m[k].Obj? then w.m[k] else Merge(Merge(Merge(Child(y, k), Child(i, k)), Child(l, k)), w.m[k])
  {
    MergeAt(y, i, k); MergeAt(Merge(y, i), l, k); MergeAt(Merge(Merge(y, i), l), w, k);
    var yk, ik, lk, wk := Child(y, k), Child(i, k), Child(l, k), w.m[k];
    EmptyIsAbsent(yk, wk);
    EmptyIsAbsent(Merge(yk, ik), wk);
    EmptyIsAbsent(Merge(yk, EMPTY), wk);
    if lk.Obj? {
      EmptyIsAbsent(yk, lk);
    }
    if ik.Obj? {
      EmptyIsAbsent(yk, ik);
    }
  }

  // ---- log conservation ----

  // What was logged, then the immediate bucket, then the periodic one, add up to the history.
  predicate Conserved(s: State, history: seq<Value>) {
    Merge(Merge(MergeAll(EMPTY, s.messages), s.immediate), s.log) == MergeAll(EMPTY, history)
  }

  // Messages and buckets are groups of tags.
  predicate Grouped(s: State) {
    (forall m | m in s.messages :: m.Obj?) && s.immediate.Obj? && s.log.Obj?
  }

  // The write can be regrouped with what is logged and what is buffered.
  predicate AddsUp(s: State, tags: Value, log: bool) {
    var sent := MergeAll(EMPTY, s.messages);
    tags.Obj? && s.log.Obj? &&
    if log then LogRegroups(sent, s.immediate, s.log, tags) else Associates(Merge(sent, s.immediate), s.log, tags)
  }

  /** One buffered write keeps the logs adding up exactly when it can be regrouped with what
      is logged and what is buffered, whatever shapes the tags have. */
  lemma BufferedConservesExactly(s: State, tags: Value, log: bool, history: seq<Value>)
    requires Conserved(s, history) && s.log.Obj? && tags.Obj?
    ensures Conserved(Buffered(s, tags, log), history + [tags]) <==> AddsUp(s, tags, log)
  {
    var sent := MergeAll(EMPTY, s.messages);
    MergeAllAppend(EMPTY, history, tags);
    if log {
      LoggedExchange(sent, s.immediate, s.log, tags);
    } else {
      AssociativityIsExact(Merge(sent, s.immediate), s.log, tags);
    }
  }

  lemma FlushesConserve(s: State, now: int, history: seq<Value>)
    requires Grouped(s) && Conserved(s, history)
    ensures var s' := FlushImmediateLogs(s, true).state;
      Grouped(s') && Conserved(s', history) && s'.immediate == EMPTY
    ensures s.immediate == EMPTY ==>
      var s' := FlushLogs(s, now, true).state;
      Grouped(s') && Conserved(s', history)
  {
    MergeAllObjects(EMPTY, s.messages);
    var sent := MergeAll(EMPTY, s.messages);
    MergeAllAppend(EMPTY, s.messages, s.immediate);
    MergeAllAppend(EMPTY, s.messages, s.log);
    MergeEmpty(sent);
    MergeEmpty(Merge(sent, s.immediate));
    MergeEmpty(Merge(sent, s.log));
  }

  lemma CommitShape(s: State, now: int, interval: int)
    ensures var b := FlushImmediateLogs(FlushTags(s, true).state, true).state;
      Commit(s, now, interval, ACCEPTING).state
      == if PeriodicDue(b, now, interval) then FlushLogs(b, now, true).state else b
  {
  }

  lemma PublishConserves(s: State, now: int, interval: int, history: seq<Value>)
    requires Grouped(s) && Conserved(s, history)
    ensures var s' := Commit(s, now, interval, ACCEPTING).state;
      Grouped(s') && Conserved(s', history)
  {
    var a := FlushTags(s, true).state;
    var b := FlushImmediateLogs(a, true).state;
    CommitShape(s, now, interval);
    assert Grouped(a) && Conserved(a, history);
    FlushesConserve(a, now, history);
    FlushesConserve(b, now, history);
  }

  lemma SetConserves(s: State, tags: Value, opts: SetOptions, history: seq<Value>)
    requires Grouped(s) && Conserved(s, history) && (Accepts(s, tags, opts) ==> AddsUp(s, tags, opts.log))
    ensures var s' := SetNested(s, tags, opts, true).state;
      Grouped(s') && Conserved(s', history + if Accepts(s, tags, opts) then [tags] else [])
  {
    if Accepts(s, tags, opts) {
      BufferedConservesExactly(s, tags, opts.log, history);
      assert Grouped(Buffered(s, tags, opts.log));
    }
    assert history + [] == history;
  }

  // Whether a set is logged at once: as asked for, or as a trigger decides.
  predicate Logs(s: State, op: Op)
    requires WellFormed(s) && IsSet(op)
  {
    op.opts.log || (op.SetOne? && Fires(s, op.path, op.value))
  }

  predicate StepAddsUp(s: State, op: Op)
    requires WellFormed(s)
  {
    Writes(s, op) ==> AddsUp(s, WriteOf(op), Logs(s, op))
  }

  lemma StepConserves(s: State, op: Op, interval: int, history: seq<Value>)
    requires WellFormed(s) && Grouped(s) && Conserved(s, history) && StepAddsUp(s, op)
    ensures var s' := Step(s, op, interval);
      Grouped(s') && Conserved(s', history + Written(s, op))
  {
    match op
    case SetOne(path, value, opts) =>
      SetConserves(Evaluated(s, path, value), WriteOf(op), opts.(log := opts.log || Fires(s, path, value)), history);
    case SetMany(tags, opts) =>
      SetConserves(s, tags, opts, history);
    case Publish(now) =>
      PublishConserves(s, now, interval, history);
      assert history + [] == history;
    case _ =>
      assert history + [] == history;
  }

  predicate RunAddsUp(s: State, ops: seq<Op>, interval: int)
    requires WellFormed(s)
    decreases |ops|
  {
    ops != [] ==> StepAddsUp(s, ops[0]) && RunAddsUp(Step(s, ops[0], interval), ops[1..], interval)
  }

  /** Log conservation: over any run whose accepted writes can be regrouped when they are
      made, nothing accepted is lost or repeated on its way through the buckets. */
  lemma {:induction false} RunConserves(s: State, ops: seq<Op>, interval: int, history: seq<Value>)
    requires WellFormed(s) && Grouped(s) && Conserved(s, history) && RunAddsUp(s, ops, interval)
    ensures var s' := Run(s, ops, interval);
      Grouped(s') && Conserved(s', history + Accepted(s, ops, interval))
    decreases |ops|
  {
    if ops == [] {
      assert history + [] == history;
    } else {
      StepConserves(s, ops[0], interval, history);
      var s', w := Step(s, ops[0], interval), Written(s, ops[0]);
      RunConserves(s', ops[1..], interval, history + w);
      ConcatRegroups(history, w, Accepted(s', ops[1..], interval));
    }
  }

  lemma ConcatRegroups(a: seq<Value>, b: seq<Value>, c: seq<Value>)
    ensures (a + b) + c == a + (b + c)
  {
  }

  // ---- runs that agree on a layout ----

  predicate LogFits(s: State, layout: Value) {
    (forall m | m in s.messages :: Fits(m, layout)) && Fits(s.immediate, layout) && Fits(s.log, layout)
  }

  predicate WriteFits(op: Op, layout: Value) {
    IsSet(op) ==> Fits(WriteOf(op), layout)
  }

  lemma FitsAddsUp(s: State, tags: Value, log: bool, layout: Value)
    requires layout.Obj? && LogFits(s, layout) && Fits(tags, layout)
    ensures AddsUp(s, tags, log)
  {
    var sent := MergeAll(EMPTY, s.messages);
    MergeAllFits(EMPTY, s.messages, layout);
    ApplyFits(sent, s.immediate, false, layout);
    FitsAssociates(Merge(sent, s.immediate), s.log, tags, layout);
    if log {
      FitsAssociates(sent, s.immediate, tags, layout);
      AssociativityIsExact(sent, s.immediate, tags);
      StripExchange(Merge(sent, s.immediate), s.log, tags);
      LoggedExchange(sent, s.immediate, s.log, tags);
    }
  }

  lemma SetFitsLogs(s: State, tags: Value, opts: SetOptions, layout: Value)
    requires LogFits(s, layout) && Fits(tags, layout)
    ensures LogFits(SetNested(s, tags, opts, true).state, layout)
  {
    ApplyFits(s.immediate, tags, false, layout);
    ApplyFits(s.log, tags, false, layout);
    StripFits(s.log, tags, layout);
  }

  lemma StepFitsLogs(s: State, op: Op, interval: int, layout: Value)
    requires WellFormed(s) && layout.Obj? && LogFits(s, layout) && WriteFits(op, layout)
    ensures LogFits(Step(s, op, interval), layout)
  {
    match op
    case SetOne(path, value, opts) =>
      SetFitsLogs(Evaluated(s, path, value), WriteOf(op), opts.(log := opts.log || Fires(s, path, value)), layout);
    case SetMany(tags, opts) => SetFitsLogs(s, tags, opts, layout);
    case Publish(now) => CommitShape(s, now, interval);
    case _ =>
  }

  // Writes that agree on one layout can always be regrouped.
  lemma {:induction false} LayoutAddsUp(s: State, ops: seq<Op>, interval: int, layout: Value)
    requires WellFormed(s) && layout.Obj? && LogFits(s, layout) && forall op | op in ops :: WriteFits(op, layout)
    ensures RunAddsUp(s, ops, interval)
    decreases |ops|
  {
    if ops != [] {
      assert WriteFits(ops[0], layout);
      if Writes(s, ops[0]) {
        FitsAddsUp(s, WriteOf(ops[0]), Logs(s, ops[0]), layout);
      }
      StepFitsLogs(s, ops[0], interval, layout);
      LayoutAddsUp(Step(s, ops[0], interval), ops[1..], interval, layout);
    }
  }

  // From the start, then, nothing but the common layout is needed.
  lemma InitialConserves(ops: seq<Op>, interval: int, layout: Value)
    requires layout.Obj? && forall op | op in ops :: WriteFits(op, layout)
    ensures var s := Run(INITIAL, ops, interval);
      Conserved(s, Accepted(INITIAL, ops, interval))
  {
    MergeEmpty(EMPTY);
    LayoutAddsUp(INITIAL, ops, interval, layout);
    RunConserves(INITIAL, ops, interval, []);
    assert [] + Accepted(INITIAL, ops, interval) == Accepted(INITIAL, ops, interval);
  }

  // ---- last writes ----

  // The last of the writes to say anything about `path`.
  function LastWrite(path: seq<string>, writes: seq<Value>): Option<Value> {
    if writes == [] then None
    else
      var last := Lookup(path, writes[|writes| - 1]);
      if last.Some? then last else LastWrite(path, writes[..|writes| - 1])
  }

  // A leaf of the layout is one tag.
  predicate IsTag(path: seq<string>, layout: Value) {
    var at := Lookup(path, layout);
    at.Some? && !at.value.Obj?
  }

  lemma {:induction false} FitsSlotted(path: seq<string>, v: Value, layout: Value)
    requires IsTag(path, layout) && Fits(v, layout)
    ensures Slotted(path, v)
  {
    if path != [] && path[0] in v.m {
      FitsSlotted(path[1..], v.m[path[0]], layout.m[path[0]]);
    }
  }

  lemma {:induction false} MergeAllIsLastWrite(path: seq<string>, base: Value, writes: seq<Value>)
    requires Slotted(path, base) && forall w | w in writes :: Slotted(path, w)
    ensures Slotted(path, MergeAll(base, writes))
    ensures Lookup(path, MergeAll(base, writes)) ==
            if LastWrite(path, writes).Some? then LastWrite(path, writes) else Lookup(path, base)
  {
    if writes != [] {
      var n := |writes| - 1;
      MergeAllIsLastWrite(path, base, writes[..n]);
      SlotMerge(path, MergeAll(base, writes[..n]), writes[n]);
    }
  }

  // ---- one tag's log ----

  predicate LogSlotted(s: State, path: seq<string>) {
    Slotted(path, s.immediate) && Slotted(path, s.log)
  }

  predicate WriteSlotted(op: Op, path: seq<string>) {
    IsSet(op) ==> Slotted(path, WriteOf(op))
  }

  // The tag's last logged value, the two buckets counted as logged next.
  function LastLogged(s: State, path: seq<string>): Option<Value> {
    if Lookup(path, s.log).Some? then Lookup(path, s.log)
    else if Lookup(path, s.immediate).Some? then Lookup(path, s.immediate)
    else LastWrite(path, s.messages)
  }

  lemma LastWriteAppend(path: seq<string>, writes: seq<Value>, w: Value)
    ensures LastWrite(path, writes + [w]) == if Lookup(path, w).Some? then Lookup(path, w) else LastWrite(path, writes)
  {
    assert (writes + [w])[..|writes|] == writes;
  }

  // The two buckets are what will be logged next.
  lemma LastLoggedIsNext(s: State, path: seq<string>)
    ensures LastLogged(s, path) == LastWrite(path, s.messages + [s.immediate, s.log])
  {
    assert s.messages + [s.immediate, s.log] == (s.messages + [s.immediate]) + [s.log];
    LastWriteAppend(path, s.messages, s.immediate);
    LastWriteAppend(path, s.messages + [s.immediate], s.log);
  }

  lemma SetLogsLatest(s: State, tags: Value, opts: SetOptions, path: seq<string>)
    requires path != [] && LogSlotted(s, path) && Slotted(path, tags)
    ensures var s' := SetNested(s, tags, opts, true).state;
      && LogSlotted(s', path)
      && LastLogged(s', path) ==
         if Accepts(s, tags, opts) && Lookup(path, tags).Some? then Lookup(path, tags) else LastLogged(s, path)
  {
    SlotMerge(path, s.immediate, tags);
    SlotMerge(path, s.log, tags);
    SlotStrip(path, s.log, tags);
  }

  lemma PublishLogsLatest(s: State, now: int, interval: int, path: seq<string>)
    requires path != [] && LogSlotted(s, path)
    ensures var s' := Commit(s, now, interval, ACCEPTING).state;
      LogSlotted(s', path) && LastLogged(s', path) == LastLogged(s, path)
  {
    CommitShape(s, now, interval);
    LastWriteAppend(path, s.messages, s.immediate);
    var b := FlushImmediateLogs(FlushTags(s, true).state, true).state;
    LastWriteAppend(path, b.messages, s.log);
  }

  lemma StepLogsLatest(s: State, op: Op, interval: int, path: seq<string>)
    requires WellFormed(s) && path != [] && LogSlotted(s, path) && WriteSlotted(op, path)
    ensures var s' := Step(s, op, interval);
      && LogSlotted(s', path)
      && LastLogged(s', path) ==
         if Writes(s, op) && Lookup(path, WriteOf(op)).Some? then Lookup(path, WriteOf(op)) else LastLogged(s, path)
  {
    match op
    case SetOne(p, value, opts) =>
      SetLogsLatest(Evaluated(s, p, value), WriteOf(op), opts.(log := opts.log || Fires(s, p, value)), path);
    case SetMany(tags, opts) => SetLogsLatest(s, tags, opts, path);
    case Publish(now) => PublishLogsLatest(s, now, interval, path);
    case _ =>
  }

  lemma {:induction false} RunLogsLatest(s: State, ops: seq<Op>, interval: int, path: seq<string>)
    requires WellFormed(s) && path != [] && LogSlotted(s, path) && forall op | op in ops :: WriteSlotted(op, path)
    ensures var last := LastWrite(path, Accepted(s, ops, interval));
      LastLogged(Run(s, ops, interval), path) == if last.Some? then last else LastLogged(s, path)
    decreases |ops|
  {
    if ops != [] {
      assert WriteSlotted(ops[0], path);
      StepLogsLatest(s, ops[0], interval, path);
      RunLogsLatest(Step(s, ops[0], interval), ops[1..], interval, path);
      LastWriteConcat(path, Written(s, ops[0]), Accepted(Step(s, ops[0], interval), ops[1..], interval));
    }
  }

  lemma {:induction false} LastWriteConcat(path: seq<string>, a: seq<Value>, b: seq<Value>)
    ensures LastWrite(path, a + b) == if LastWrite(path, b).Some? then LastWrite(path, b) else LastWrite(path, a)
  {
    if b == [] {
      assert a + b == a;
    } else {
      var n := |b| - 1;
      assert a + b == (a + b[..n]) + [b[n]];
      LastWriteAppend(path, a + b[..n], b[n]);
      LastWriteConcat(path, a, b[..n]);
    }
  }

  /** No accepted value of a tag is lost, whatever becomes of the others: after any run in
      which the tag's path holds groups and at its end plain values, its last logged value,
      counting the two buckets as logged next, is the last value accepted for it. */
  lemma LastLoggedIsLatest(ops: seq<Op>, interval: int, path: seq<string>)
    requires path != [] && forall op | op in ops :: WriteSlotted(op, path)
    ensures var s := Run(INITIAL, ops, interval);
      LastWrite(path, s.messages + [s.immediate, s.log]) == LastWrite(path, Accepted(INITIAL, ops, interval))
  {
    RunLogsLatest(INITIAL, ops, interval, path);
    LastLoggedIsNext(Run(INITIAL, ops, interval), path);
  }
}
