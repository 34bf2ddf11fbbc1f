// What a commit of processor tags writes, from the sets made since the one before: which
// tags are published, which are logged, and when neither is.
module ProcessorLogs {
  import opened Json
  import opened Wrappers
  import opened Diff
  import opened DiffLaws
  import opened ProcessorTags
  import opened ProcessorTagLaws

  // ---- one set ----

  predicate Differs(s: State, op: Op)
    requires op.Set?
  {
    Current(s, AppOf(s, op.opts), op.key) != op.v
  }

  // What makes a set ask for a commit.
  predicate Wakes(s: State, op: Op) {
    op.Set? && (Differs(s, op) || op.opts.log || s.mode == OnlySet)
  }

  predicate IsAt(s: State, op: Op, app: string, key: string) {
    op.Set? && AppOf(s, op.opts) == app && op.key == key
  }

  /** A set is read back at once, and nothing else reads differently; it is among the touched
      tags, and among the dirty ones if it changed the value. */
  lemma SetContents(s: State, op: Op, app: string, key: string)
    requires op.Set? && s.tagValues.Obj?
    ensures var t := Step(s, op).state;
      && Current(t, app, key) == (if IsAt(s, op, app, key) then op.v else Current(s, app, key))
      && TagAt(t.touched, app, key) == (if IsAt(s, op, app, key) then Some(op.v) else TagAt(s.touched, app, key))
      && TagAt(t.dirty, app, key)
         == (if IsAt(s, op, app, key) && Differs(s, op) then Some(op.v) else TagAt(s.dirty, app, key))
  {
    var a := AppOf(s, op.opts);
    InsertNestedAt(s.touched, a, op.key, op.v, app, key);
    InsertNestedAt(s.dirty, a, op.key, op.v, app, key);
    SetIsRead(s, op, app, key);
  }

  lemma SetIsRead(s: State, op: Op, app: string, key: string)
    requires op.Set? && s.tagValues.Obj?
    ensures Current(Step(s, op).state, app, key) == if IsAt(s, op, app, key) then op.v else Current(s, app, key)
  {
    InsertNestedAt(s.tagValues.m, AppOf(s, op.opts), op.key, op.v, app, key);
  }

  /** A missing tag reads as null: clearing it changes nothing, and is not published. */
  lemma MissingReadsNull(s: State, key: string, opts: SetOptions)
    requires s.tagValues.Obj? && TagAt(s.tagValues.m, AppOf(s, opts), key).None?
    ensures Current(s, AppOf(s, opts), key) == Null
    ensures var t := SetTag(s, key, Null, opts); t.tagValues == s.tagValues && t.dirty == s.dirty
  {
  }

  /** The flags of a set say whether a commit, a log and other apps were asked for; the
      backend is left alone. */
  lemma SetFlags(s: State, op: Op)
    requires op.Set? && s.tagValues.Obj?
    ensures var t := Step(s, op).state;
      && Step(s, op).ok && t.tagValues.Obj? && t.own == s.own && t.mode == s.mode
      && t.aggregate == s.aggregate && t.published == s.published && t.messages == s.messages
      && (t.updateTags <==> s.updateTags || Wakes(s, op))
      && (t.record <==> s.record || op.opts.log)
      && (t.external <==> s.external || (Wakes(s, op) && AppOf(s, op.opts) != s.own))
  {
  }

  // ---- the sets since a commit ----

  predicate AllSets(ops: seq<Op>) {
    forall op | op in ops :: op.Set?
  }

  predicate SetIn(s: State, ops: seq<Op>, app: string, key: string)
    decreases |ops|
  {
    ops != [] && (IsAt(s, ops[0], app, key) || SetIn(Step(s, ops[0]).state, ops[1..], app, key))
  }

  predicate ChangedIn(s: State, ops: seq<Op>, app: string, key: string)
    decreases |ops|
  {
    ops != [] &&
    ((IsAt(s, ops[0], app, key) && Differs(s, ops[0])) || ChangedIn(Step(s, ops[0]).state, ops[1..], app, key))
  }

  predicate Changed(s: State, ops: seq<Op>, app: string, key: string) {
    ChangedIn(s, ops, app, key)
  }

  predicate WokenIn(s: State, ops: seq<Op>)
    decreases |ops|
  {
    ops != [] && (Wakes(s, ops[0]) || WokenIn(Step(s, ops[0]).state, ops[1..]))
  }

  predicate ReachesOut(s: State, ops: seq<Op>)
    decreases |ops|
  {
    ops != [] &&
    ((Wakes(s, ops[0]) && AppOf(s, ops[0].opts) != s.own) || ReachesOut(Step(s, ops[0]).state, ops[1..]))
  }

  predicate LogAsked(ops: seq<Op>) {
    exists op | op in ops :: op.Set? && op.opts.log
  }

  // Memory holds what was set last.
  predicate Groups(buffer: map<string, Value>) {
    forall app | app in buffer :: buffer[app].Obj? && buffer[app] != EMPTY
  }

  lemma SetKeepsGroups(s: State, op: Op)
    requires op.Set? && Groups(s.dirty) && Groups(s.touched)
    ensures var t := Step(s, op).state; Groups(t.dirty) && Groups(t.touched)
  {
    var app := AppOf(s, op.opts);
    GroupsInserted(s.dirty, app, op.key, op.v);
    GroupsInserted(s.touched, app, op.key, op.v);
  }

  lemma GroupsInserted(buffer: map<string, Value>, app: string, key: string, v: Value)
    requires Groups(buffer)
    ensures Groups(InsertNested(buffer, app, key, v))
  {
    assert key in InsertNested(buffer, app, key, v)[app].m;
  }

  lemma {:induction false} SetsExactly(s: State, ops: seq<Op>, app: string, key: string)
    requires AllSets(ops) && s.tagValues.Obj? && Groups(s.dirty) && Groups(s.touched)
    ensures var r := Run(s, ops); var t := r.state;
      && r.ok && t.tagValues.Obj? && t.own == s.own && t.mode == s.mode
      && t.aggregate == s.aggregate && t.published == s.published && t.messages == s.messages
      && Groups(t.dirty) && Groups(t.touched)
      && (TagAt(t.touched, app, key) ==
          if SetIn(s, ops, app, key) then Some(Current(t, app, key)) else TagAt(s.touched, app, key))
      && (t.updateTags <==> s.updateTags || WokenIn(s, ops))
      && (t.record <==> s.record || LogAsked(ops))
      && (t.external <==> s.external || ReachesOut(s, ops))
    decreases |ops|
  {
    if ops != [] {
      assert ops[0] in ops;
      SetContents(s, ops[0], app, key);
      SetFlags(s, ops[0]);
      SetKeepsGroups(s, ops[0]);
      SetsExactly(Step(s, ops[0]).state, ops[1..], app, key);
      if !SetIn(Step(s, ops[0]).state, ops[1..], app, key) {
        UnsetIsKept(Step(s, ops[0]).state, ops[1..], app, key);
      }
      assert LogAsked(ops) <==> ops[0].opts.log || LogAsked(ops[1..]);
    }
  }

  lemma {:induction false} UnsetIsKept(s: State, ops: seq<Op>, app: string, key: string)
    requires AllSets(ops) && s.tagValues.Obj? && !SetIn(s, ops, app, key)
    ensures Current(Run(s, ops).state, app, key) == Current(s, app, key)
    ensures TagAt(Run(s, ops).state.dirty, app, key) == TagAt(s.dirty, app, key)
    decreases |ops|
  {
    if ops != [] {
      assert ops[0] in ops;
      SetContents(s, ops[0], app, key);
      SetFlags(s, ops[0]);
      UnsetIsKept(Step(s, ops[0]).state, ops[1..], app, key);
    }
  }

  // The dirty tags are those that changed, with what memory holds for them.
  lemma {:induction false} DirtyExactly(s: State, ops: seq<Op>, app: string, key: string)
    requires AllSets(ops) && s.tagValues.Obj?
    requires TagAt(s.dirty, app, key).Some? ==> TagAt(s.dirty, app, key) == Some(Current(s, app, key))
    ensures var t := Run(s, ops).state;
      TagAt(t.dirty, app, key) ==
      if TagAt(s.dirty, app, key).Some? || ChangedIn(s, ops, app, key) then Some(Current(t, app, key)) else None
    decreases |ops|
  {
    if ops != [] {
      assert ops[0] in ops;
      SetContents(s, ops[0], app, key);
      SetFlags(s, ops[0]);
      DirtyExactly(Step(s, ops[0]).state, ops[1..], app, key);
    }
  }

  // ---- what a commit writes ----

  predicate InScope(s: State, app: string) {
    s.external || app == s.own
  }

  // A buffer, cut to what this invocation may write.
  lemma ScopeExactly(source: map<string, Value>, own: string, external: bool)
    requires Groups(source)
    ensures var p := ScopePayload(source, own, external);
      && (p.Some? <==> exists app, key :: (external || app == own) && TagAt(source, app, key).Some?)
      && (p.Some? ==> p.value.Obj? && forall app, key ::
            TagAt(p.value.m, app, key) == if external || app == own then TagAt(source, app, key) else None)
  {
    var p := ScopePayload(source, own, external);
    if p.Some? {
      var app := if external then var a :| a in source; a else own;
      assert source[app].m != map[];
      var key :| key in source[app].m;
      assert TagAt(source, app, key).Some?;
    }
  }

  // Nothing is waiting to be committed.
  predicate Clean(s: State) {
    !s.updateTags && s.dirty == map[] && s.touched == map[]
  }

  // The start, and every commit that had something to do or nothing was set before, is clean.
  lemma StartsClean(own: string, seed: Value, record: bool, mode: LogMode, aggregate: Value)
    ensures Clean(Fresh(own, seed, record, mode, aggregate))
  {
  }

  lemma CommitsClean(s: State, recordLog: bool, invoking: Option<string>)
    requires s.updateTags
    ensures Clean(Commit(s, recordLog, invoking).state)
  {
  }

  // The tags a log of the sets since a clean state has to hold, for the mode.
  ghost predicate ToLog(s: State, ops: seq<Op>, app: string, key: string) {
    var t := Run(s, ops).state;
    InScope(t, app) &&
    match t.mode
    case Always => t.tagValues.Obj? && TagAt(t.tagValues.m, app, key).Some?
    case Never => false
    case OnlyChanged => ChangedIn(s, ops, app, key)
    case OnlySet => SetIn(s, ops, app, key)
  }

  // Whether memory has anything this invocation may write.
  predicate HasUpdate(s: State) {
    s.tagValues.Obj? &&
    if s.external then s.tagValues.m != map[]
    else s.own in s.tagValues.m && s.tagValues.m[s.own] != Null && s.tagValues.m[s.own] != EMPTY
  }

  function InMemory(s: State): Value
    requires HasUpdate(s)
  {
    if s.external then s.tagValues else Single(s.own, s.tagValues.m[s.own])
  }

  /** The log of a commit, from the sets since the last one: written exactly if a set, the
      invocation or the commit asked for one, some set woke the commit, and the mode leaves
      something to log; and then it holds exactly the tags of the mode, as memory has them. */
  lemma LogIsWrittenExactly(s: State, ops: seq<Op>, recordLog: bool)
    requires Clean(s) && AllSets(ops) && s.tagValues.Obj?
    ensures var t := Run(s, ops).state;
      var log, after := LogOf(t, recordLog), Commit(t, recordLog, None).state;
      var asked := (s.record || LogAsked(ops) || recordLog) && WokenIn(s, ops);
      && t.tagValues.Obj?
      && after.messages == s.messages + (if log.Some? then [log.value] else [])
      && (log.Some? <==> asked && if s.mode == Always then HasUpdate(t) else exists app, key :: ToLog(s, ops, app, key))
      && (log.Some? ==> log.value.Obj? && forall app, key ::
            TagAt(log.value.m, app, key) == if ToLog(s, ops, app, key) then Some(Current(t, app, key)) else None)
  {
    var t := Run(s, ops).state;
    BuffersExactly(s, ops);
    CommitAppends(t, recordLog);
    ModePayloadExactly(s, ops);
  }

  // What the mode would log, if a log is asked for.
  function ModePayload(s: State): Option<Value> {
    match s.mode
    case Always => Update(s)
    case Never => None
    case OnlyChanged => ScopePayload(s.dirty, s.own, s.external)
    case OnlySet => ScopePayload(s.touched, s.own, s.external)
  }

  lemma CommitAppends(s: State, recordLog: bool)
    ensures Commit(s, recordLog, None).state.messages
            == s.messages + (if LogOf(s, recordLog).Some? then [LogOf(s, recordLog).value] else [])
    ensures LogOf(s, recordLog) == if s.updateTags && (s.record || recordLog) then ModePayload(s) else None
  {
  }

  lemma ModePayloadExactly(s: State, ops: seq<Op>)
    requires Clean(s) && AllSets(ops) && s.tagValues.Obj?
    ensures var t := Run(s, ops).state;
      var log := ModePayload(t);
      && (log.Some? <==> if s.mode == Always then HasUpdate(t) else exists app, key :: ToLog(s, ops, app, key))
      && (log.Some? ==> log.value.Obj? && forall app, key ::
            TagAt(log.value.m, app, key) == if ToLog(s, ops, app, key) then Some(Current(t, app, key)) else None)
  {
    var t := Run(s, ops).state;
    BuffersExactly(s, ops);
    match t.mode
    case OnlyChanged =>
      ScopeExactly(t.dirty, t.own, t.external);
      PayloadHolds(s, ops, t.dirty);
    case OnlySet =>
      ScopeExactly(t.touched, t.own, t.external);
      PayloadHolds(s, ops, t.touched);
    case Always => UpdateHolds(t);
    case Never =>
  }

  // What the buffers hold after the sets of a clean state.
  lemma BuffersExactly(s: State, ops: seq<Op>)
    requires Clean(s) && AllSets(ops) && s.tagValues.Obj?
    ensures var r := Run(s, ops); var t := r.state;
      && r.ok && t.tagValues.Obj? && t.own == s.own && t.mode == s.mode && t.aggregate == s.aggregate
      && t.published == s.published && t.messages == s.messages && Groups(t.dirty) && Groups(t.touched)
      && (t.updateTags <==> WokenIn(s, ops)) && (t.record <==> s.record || LogAsked(ops))
      && (t.external <==> s.external || ReachesOut(s, ops))
      && (forall app, key :: TagAt(t.touched, app, key)
            == if SetIn(s, ops, app, key) then Some(Current(t, app, key)) else None)
      && (forall app, key :: TagAt(t.dirty, app, key)
            == if ChangedIn(s, ops, app, key) then Some(Current(t, app, key)) else None)
  {
    var t := Run(s, ops).state;
    SetsExactly(s, ops, "", "");
    forall app, key
      ensures TagAt(t.touched, app, key) == if SetIn(s, ops, app, key) then Some(Current(t, app, key)) else None
      ensures TagAt(t.dirty, app, key) == if ChangedIn(s, ops, app, key) then Some(Current(t, app, key)) else None
    {
      SetsExactly(s, ops, app, key);
      DirtyExactly(s, ops, app, key);
    }
  }

  lemma PayloadHolds(s: State, ops: seq<Op>, source: map<string, Value>)
    requires var t := Run(s, ops).state;
      var p := ScopePayload(source, t.own, t.external);
      && t.tagValues.Obj? && (t.mode == OnlyChanged || t.mode == OnlySet)
      && (p.Some? <==> exists app, key :: (t.external || app == t.own) && TagAt(source, app, key).Some?)
      && (p.Some? ==> p.value.Obj? && forall app, key ::
            TagAt(p.value.m, app, key) == if t.external || app == t.own then TagAt(source, app, key) else None)
      && (forall app, key :: TagAt(source, app, key) ==
            if (if t.mode == OnlyChanged then ChangedIn(s, ops, app, key) else SetIn(s, ops, app, key))
            then Some(Current(t, app, key)) else None)
    ensures var t := Run(s, ops).state;
      var p := ScopePayload(source, t.own, t.external);
      && (p.Some? <==> exists app, key :: ToLog(s, ops, app, key))
      && (p.Some? ==> p.value.Obj? && forall app, key ::
            TagAt(p.value.m, app, key) == if ToLog(s, ops, app, key) then Some(Current(t, app, key)) else None)
  {
    var t := Run(s, ops).state;
    forall app, key
      ensures ToLog(s, ops, app, key) <==> (t.external || app == t.own) && TagAt(source, app, key).Some?
    {
    }
    var p := ScopePayload(source, t.own, t.external);
    if p.Some? {
      var app, key :| (t.external || app == t.own) && TagAt(source, app, key).Some?;
      assert ToLog(s, ops, app, key);
    }
    if app, key :| ToLog(s, ops, app, key) {
      assert (t.external || app == t.own) && TagAt(source, app, key).Some?;
    }
  }

  lemma UpdateHolds(s: State)
    requires s.tagValues.Obj?
    ensures Update(s).Some? <==> HasUpdate(s)
    ensures Update(s).Some? ==> Update(s).value.Obj? && forall app, key ::
      TagAt(Update(s).value.m, app, key) == if InScope(s, app) then TagAt(s.tagValues.m, app, key) else None
  {
  }

  /** The aggregate is published, once, exactly if some set since the last commit changed a
      tag, and then with all that memory holds in scope. */
  lemma UpdateIsPublishedExactly(s: State, ops: seq<Op>, recordLog: bool)
    requires Clean(s) && AllSets(ops) && Buffering(s)
    ensures var t := Run(s, ops).state;
      var after := Commit(t, recordLog, None).state;
      && t.tagValues.Obj?
      && if exists app, key :: Changed(s, ops, app, key)
         then HasUpdate(t) && after.published == s.published + [InMemory(t)]
         else after.published == s.published && after.aggregate == s.aggregate
  {
    var t := Run(s, ops).state;
    BuffersExactly(s, ops);
    RunKeepsBuffer(s, ops);
    DirtyIsChanged(s, ops);
    if t.dirty != map[] {
      DirtyIsPublished(t);
      UpdateHolds(t);
    }
    CommitPublishes(t, recordLog);
  }

  lemma DirtyIsChanged(s: State, ops: seq<Op>)
    requires Clean(s) && AllSets(ops) && s.tagValues.Obj?
    ensures Run(s, ops).state.dirty != map[] <==> exists app, key :: Changed(s, ops, app, key)
  {
    var dirty := Run(s, ops).state.dirty;
    BuffersExactly(s, ops);
    GroupsHold(dirty);
    assert forall app, key :: TagAt(dirty, app, key).Some? <==> Changed(s, ops, app, key);
  }

  lemma GroupsHold(buffer: map<string, Value>)
    requires Groups(buffer)
    ensures buffer != map[] <==> exists app, key :: TagAt(buffer, app, key).Some?
  {
    if app :| app in buffer {
      assert buffer[app].m != map[];
      var key :| key in buffer[app].m;
      assert TagAt(buffer, app, key).Some?;
    } else {
      assert buffer == map[];
    }
  }

  lemma CommitPublishes(s: State, recordLog: bool)
    requires s.tagValues.Obj? && (s.dirty != map[] ==> s.updateTags && Update(s).Some?)
    ensures var after := Commit(s, recordLog, None).state;
      if s.dirty == map[] then after.published == s.published && after.aggregate == s.aggregate
      else HasUpdate(s) && after.published == s.published + [InMemory(s)]
  {
  }

  /** Under the guard: a commit fails exactly if one of its payloads is refused, the update
      stands if only the log was, and the buffers are gone either way. */
  lemma GuardedCommitExactly(s: State, recordLog: bool, invoking: Option<string>)
    requires s.updateTags
    ensures var update, log := if s.dirty != map[] then Update(s) else None, LogPayload(s, recordLog);
      var noUpdate := update.Some? && !MayPublish(invoking, Some(s.own), TAG_CHANNEL, update.value);
      var noLog := log.Some? && !MayPublish(invoking, Some(s.own), TAG_CHANNEL, log.value);
      var r := Commit(s, recordLog, invoking);
      && (r.ok <==> !noUpdate && !noLog) && Clean(r.state)
      && r.state.published == s.published + (if update.Some? && !noUpdate then [update.value] else [])
      && r.state.aggregate == (if update.Some? && !noUpdate then Merge(s.aggregate, update.value) else s.aggregate)
      && r.state.messages == s.messages + (if log.Some? && r.ok then [log.value] else [])
  {
  }
}
