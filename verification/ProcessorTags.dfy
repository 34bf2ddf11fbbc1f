// The write-back tag buffer of one processor invocation (processor/tags.rs), the
// backend it commits to (testing.rs), and the two guards against feedback
// (api/data.rs, processor/runner.rs).
module ProcessorTags {
  import opened Json
  import opened Wrappers
  import opened Diff
  import opened DiffLaws

  datatype LogMode = Always | Never | OnlyChanged | OnlySet

  datatype SetOptions = SetOptions(appKey: Option<string>, log: bool)

  // `aggregate`, `published` and `messages` are the backend's side of the `tag_values` channel.
  datatype State = State(
    own: string, tagValues: Value, updateTags: bool, record: bool, external: bool, mode: LogMode,
    dirty: map<string, Value>, touched: map<string, Value>,
    aggregate: Value, published: seq<Value>, messages: seq<Value>)

  const TAG_CHANNEL := "tag_values"

  // ---- the backend's merge ----

  // testing.rs spells the merge out again; it is the same merge.
  method MergeInPlace(base: Value, diff: Value) returns (out: Value)
    ensures out == Merge(base, diff)
    decreases diff
  {
    if !base.Obj? || !diff.Obj? {
      return diff;
    }
    ghost var target := Merge(base, diff).m;
    var entries := base.m;
    var todo := diff.m.Keys;
    while todo != {}
      invariant todo <= diff.m.Keys
      invariant forall k :: SameAt(entries, if k in todo then base.m else target, k)
      decreases todo
    {
      var k :| k in todo;
      var v := diff.m[k];
      assert SameAt(entries, base.m, k);
      ghost var before := entries;
      MergeAt(base, diff, k);
      if k in entries && entries[k].Obj? && v.Obj? {
        var merged := MergeInPlace(entries[k], v);
        entries := entries[k := merged];
      } else {
        entries := entries[k := v];
      }
      todo := todo - {k};
      assert SameAt(entries, target, k);
      assert forall j :: j != k ==> SameAt(entries, before, j);
    }
    SameEverywhere(entries, target);
    out := Obj(entries);
  }

  // ---- setting ----

  function TagAt(m: map<string, Value>, app: string, key: string): Option<Value> {
    if app in m && m[app].Obj? && key in m[app].m then Some(m[app].m[key]) else None
  }

  function InsertNested(m: map<string, Value>, app: string, key: string, v: Value): map<string, Value> {
    if app in m && m[app].Obj? then m[app := Obj(m[app].m[key := v])] else m[app := Single(key, v)]
  }

  function Fresh(own: string, seed: Value, record: bool, mode: LogMode, aggregate: Value): State {
    State(own, if seed.Obj? then seed else EMPTY, false, record, false, mode, map[], map[], aggregate, [], [])
  }

  function AppOf(s: State, opts: SetOptions): string {
    opts.appKey.GetOr(s.own)
  }

  // A missing tag reads as null.
  function Current(s: State, app: string, key: string): Value {
    if s.tagValues.Obj? then TagAt(s.tagValues.m, app, key).GetOr(Null) else Null
  }

  // Asking for a write at commit time.
  function Requested(s: State, app: string, log: bool): State {
    s.(updateTags := true, record := s.record || log, external := s.external || app != s.own)
  }

  function Stored(s: State, app: string, key: string, v: Value): State {
    s.(tagValues := if s.tagValues.Obj? then Obj(InsertNested(s.tagValues.m, app, key, v)) else s.tagValues,
       dirty := InsertNested(s.dirty, app, key, v))
  }

  function SetTag(s: State, key: string, v: Value, opts: SetOptions): State {
    var app := AppOf(s, opts);
    var touched := s.(touched := InsertNested(s.touched, app, key, v));
    if Current(s, app, key) != v then Requested(Stored(touched, app, key, v), app, opts.log)
    else if opts.log || s.mode == OnlySet then Requested(touched, app, opts.log)
    else touched
  }

  // ---- committing ----

  predicate IsFalsy(v: Value) {
    v.Null? || v == EMPTY
  }

  // What the aggregate write would carry; an empty payload publishes nothing.
  function Update(s: State): Option<Value> {
    if s.external then if IsFalsy(s.tagValues) then None else Some(s.tagValues)
    else if s.tagValues.Obj? && s.own in s.tagValues.m && !IsFalsy(s.tagValues.m[s.own])
    then Some(Single(s.own, s.tagValues.m[s.own]))
    else None
  }

  function ScopePayload(source: map<string, Value>, own: string, external: bool): Option<Value> {
    if external then if source == map[] then None else Some(Obj(source))
    else if own in source && !IsFalsy(source[own]) then Some(Single(own, source[own]))
    else None
  }

  function LogPayload(s: State, recordLog: bool): Option<Value> {
    if !s.record && !recordLog then None
    else match s.mode
      case Never => None
      case Always => Update(s)
      case OnlyChanged => ScopePayload(s.dirty, s.own, s.external)
      case OnlySet => ScopePayload(s.touched, s.own, s.external)
  }

  // `check_invoking_channel`: writing back to the channel that caused the invocation is
  // refused, except for this app's own part of `tag_values`.
  predicate MayPublish(invoking: Option<string>, appKey: Option<string>, channel: string, data: Value) {
    invoking == Some(channel) ==>
      channel == TAG_CHANNEL && (data.Obj? ==> forall k | k in data.m :: Some(k) == appKey)
  }

  // `is_tag_values_self_loop`, on the data of an aggregate update or a created message.
  predicate IsSelfLoop(channel: string, data: Value, appKey: string) {
    channel == TAG_CHANNEL && data.Obj? && appKey in data.m
  }

  function Published(s: State, data: Option<Value>): State {
    if data.None? then s else s.(aggregate := Merge(s.aggregate, data.value), published := s.published + [data.value])
  }

  function Logged(s: State, data: Option<Value>): State {
    if data.None? then s else s.(messages := s.messages + [data.value])
  }

  datatype Outcome = Outcome(state: State, ok: bool)

  predicate Refused(invoking: Option<string>, s: State, data: Option<Value>) {
    data.Some? && !MayPublish(invoking, Some(s.own), TAG_CHANNEL, data.value)
  }

  function Commit(s: State, recordLog: bool, invoking: Option<string>): Outcome {
    if !s.updateTags then Outcome(s, true)
    else
      Deliver(s.(updateTags := false, dirty := map[], touched := map[]),
              if s.dirty != map[] then Update(s) else None, LogPayload(s, recordLog), invoking)
  }

  function Deliver(s: State, update: Option<Value>, log: Option<Value>, invoking: Option<string>): Outcome {
    if Refused(invoking, s, update) then Outcome(s, false)
    else if Refused(invoking, s, log) then Outcome(Published(s, update), false)
    else Outcome(Logged(Published(s, update), log), true)
  }

  class Tags {
    const own: string
    var tagValues: Value
    var updateTags: bool
    var record: bool
    var external: bool
    var mode: LogMode
    var dirty: map<string, Value>
    var touched: map<string, Value>
    var aggregate: Value
    var published: seq<Value>
    var messages: seq<Value>

    ghost function Abstract(): State
      reads this
    {
      State(own, tagValues, updateTags, record, external, mode, dirty, touched, aggregate, published, messages)
    }

    constructor (own: string, seed: Value, record: bool, aggregate: Value)
      ensures this.own == own && Abstract() == Fresh(own, seed, record, Always, aggregate)
    {
      this.own, this.record, this.aggregate := own, record, aggregate;
      tagValues := if seed.Obj? then seed else EMPTY;
      updateTags, external, mode := false, false, Always;
      dirty, touched, published, messages := map[], map[], [], [];
    }

    method SetLogMode(mode: LogMode)
      modifies this`mode
      ensures Abstract() == old(Abstract()).(mode := mode)
    {
      this.mode := mode;
    }

    method Set(key: string, v: Value, opts: SetOptions)
      modifies this
      ensures Abstract() == SetTag(old(Abstract()), key, v, opts)
    {
      var app := opts.appKey.GetOr(own);
      var current := CurrentValue(app, key);
      touched := InsertNested(touched, app, key, v);
      if current == v {
        if opts.log || mode == OnlySet {
          RequestUpdate(app, opts.log);
        }
        return;
      }
      StoreValue(app, key, v);
      RequestUpdate(app, opts.log);
    }

    method StoreValue(app: string, key: string, v: Value)
      modifies this`tagValues, this`dirty
      ensures Abstract() == Stored(old(Abstract()), app, key, v)
    {
      if tagValues.Obj? {
        tagValues := Obj(InsertNested(tagValues.m, app, key, v));
      }
      dirty := InsertNested(dirty, app, key, v);
    }

    method CurrentValue(app: string, key: string) returns (v: Value)
      ensures v == Current(Abstract(), app, key)
    {
      v := if tagValues.Obj? then TagAt(tagValues.m, app, key).GetOr(Null) else Null;
    }

    method RequestUpdate(app: string, log: bool)
      modifies this`updateTags, this`record, this`external
      ensures Abstract() == Requested(old(Abstract()), app, log)
    {
      updateTags, record := true, record || log;
      external := external || app != own;
    }

    method CommitTags(recordLog: bool, invoking: Option<string>) returns (ok: bool)
      modifies this
      ensures Outcome(Abstract(), ok) == Commit(old(Abstract()), recordLog, invoking)
    {
      if !updateTags {
        return true;
      }
      var whole := UpdatePayload();
      var update := if dirty != map[] then whole else None;
      var log := ChooseLog(recordLog, whole);
      updateTags, dirty, touched := false, map[], map[];
      ok := Push(update, invoking);
      if ok {
        ok := Append(log, invoking);
      }
    }

    method ChooseLog(recordLog: bool, whole: Option<Value>) returns (log: Option<Value>)
      requires whole == Update(Abstract())
      ensures log == LogPayload(Abstract(), recordLog)
    {
      log := None;
      if record || recordLog {
        match mode
        case Never =>
        case Always => log := whole;
        case OnlyChanged => log := ScopePayload(dirty, own, external);
        case OnlySet => log := ScopePayload(touched, own, external);
      }
    }

    method UpdatePayload() returns (update: Option<Value>)
      ensures update == Update(Abstract())
    {
      if external {
        update := if IsFalsy(tagValues) then None else Some(tagValues);
      } else if tagValues.Obj? && own in tagValues.m && !IsFalsy(tagValues.m[own]) {
        update := Some(Single(own, tagValues.m[own]));
      } else {
        update := None;
      }
    }

    method Push(data: Option<Value>, invoking: Option<string>) returns (ok: bool)
      modifies this`aggregate, this`published
      ensures ok <==> !Refused(invoking, old(Abstract()), data)
      ensures Abstract() == if ok then Published(old(Abstract()), data) else old(Abstract())
    {
      if data.None? {
        return true;
      }
      if !MayPublish(invoking, Some(own), TAG_CHANNEL, data.value) {
        return false;
      }
      aggregate := MergeInPlace(aggregate, data.value);
      published := published + [data.value];
      return true;
    }

    method Append(data: Option<Value>, invoking: Option<string>) returns (ok: bool)
      modifies this`messages
      ensures ok <==> !Refused(invoking, old(Abstract()), data)
      ensures Abstract() == if ok then Logged(old(Abstract()), data) else old(Abstract())
    {
      if data.None? {
        return true;
      }
      if !MayPublish(invoking, Some(own), TAG_CHANNEL, data.value) {
        return false;
      }
      messages := messages + [data.value];
      return true;
    }
  }
}
