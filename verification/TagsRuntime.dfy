// The tag runtime of the device loop (tags/runtime.rs): a cached aggregate, the
// writes waiting to be published, and two buckets of values waiting to be logged.
module TagsRuntime {
  import opened Json
  import opened Wrappers
  import opened Diff
  import opened KeyPaths
  import opened Triggers

  datatype SetOptions = SetOptions(onlyIfChanged: bool, flush: bool, log: bool)

  datatype Entry = Entry(path: seq<string>, set_: SetState)

  // `published` and `messages` are what the device agent has accepted so far.
  datatype State = State(
    cache: Value, pending: Value, log: Value, immediate: Value, dirty: bool, lastFlush: Option<int>,
    triggers: seq<Entry>, published: seq<Value>, messages: seq<Value>)

  const INITIAL := State(EMPTY, EMPTY, EMPTY, EMPTY, false, None, [], [], [])

  // Whether the agent accepts each call of a commit.
  datatype Agent = Agent(aggregate: bool, immediate: bool, periodic: bool)

  datatype Outcome = Outcome(state: State, ok: bool)

  // ---- the specification: one function per critical section ----

  predicate WellFormed(s: State) {
    forall e | e in s.triggers :: |e.set_.states| == |e.set_.triggers|
  }

  // What a reader sees: the cache overlaid with the pending writes.
  function View(s: State): Value {
    Merge(s.cache, s.pending)
  }

  function GetTag(s: State, appKey: string, key: string): Option<Value> {
    Lookup(Scoped(appKey, key), View(s))
  }

  predicate Unchanged(s: State, tags: Value) {
    IsEmptyObject(GenerateDiff(View(s), tags, false))
  }

  predicate Accepts(s: State, tags: Value, opts: SetOptions) {
    !(opts.onlyIfChanged && Unchanged(s, tags))
  }

  // A logged write goes to the immediate bucket and takes its paths out of the periodic one.
  function Buffered(s: State, tags: Value, log: bool): State {
    var s' := s.(pending := Merge(s.pending, tags));
    if log then s'.(immediate := Merge(s.immediate, tags), log := StripPaths(s.log, tags))
    else s'.(log := Merge(s.log, tags))
  }

  function SetNested(s: State, tags: Value, opts: SetOptions, sendOk: bool): Outcome {
    if !Accepts(s, tags, opts) then Outcome(s, true)
    else
      var b := Buffered(s, tags, opts.log);
      if !opts.flush then Outcome(b.(dirty := true), true)
      else if !sendOk then Outcome(b, false)
      else Outcome(b.(cache := ApplyDiff(b.cache, b.pending, true), dirty := false,
                      published := b.published + [b.pending]), true)
  }

  function IndexOf(entries: seq<Entry>, path: seq<string>): (found: Option<nat>)
    ensures found.Some? ==> found.value < |entries| && entries[found.value].path == path
  {
    if entries == [] then None
    else if entries[0].path == path then Some(0)
    else match IndexOf(entries[1..], path)
      case None => None
      case Some(i) => Some(i + 1)
  }

  predicate Fires(s: State, path: seq<string>, value: Value)
    requires WellFormed(s)
  {
    var i := IndexOf(s.triggers, path);
    i.Some? && SetFires(s.triggers[i.value].set_, Lookup(path, View(s)), value)
  }

  function Evaluated(s: State, path: seq<string>, value: Value): (s': State)
    requires WellFormed(s)
    ensures WellFormed(s')
  {
    var i := IndexOf(s.triggers, path);
    if i.None? then s
    else
      var e := s.triggers[i.value];
      s.(triggers := s.triggers[i.value := e.(set_ := SetAfter(e.set_, Lookup(path, View(s)), value))])
  }

  // Triggers run before the "did it change" test, on the value as it was.
  function SetTag(s: State, path: seq<string>, value: Value, opts: SetOptions, sendOk: bool): Outcome
    requires WellFormed(s)
  {
    SetNested(Evaluated(s, path, value), Construct(path, value),
              opts.(log := opts.log || Fires(s, path, value)), sendOk)
  }

  function FlushTags(s: State, sendOk: bool): Outcome {
    if !s.dirty then Outcome(s, true)
    else
      var taken := s.(dirty := false, pending := EMPTY);
      if !sendOk then Outcome(taken, false)
      else Outcome(taken.(cache := ApplyDiff(s.cache, s.pending, true), published := s.published + [s.pending]), true)
  }

  function FlushImmediateLogs(s: State, sendOk: bool): Outcome {
    if IsEmptyObject(s.immediate) then Outcome(s, true)
    else if !sendOk then Outcome(s.(immediate := EMPTY), false)
    else Outcome(s.(immediate := EMPTY, messages := s.messages + [s.immediate]), true)
  }

  function FlushLogs(s: State, now: int, sendOk: bool): Outcome {
    if IsEmptyObject(s.log) then Outcome(s, true)
    else
      var taken := s.(log := EMPTY, lastFlush := Some(now));
      if !sendOk then Outcome(taken, false) else Outcome(taken.(messages := s.messages + [s.log]), true)
  }

  predicate PeriodicDue(s: State, now: int, interval: int) {
    !IsEmptyObject(s.log) && (s.lastFlush.Some? ==> now - s.lastFlush.value >= interval)
  }

  function Commit(s: State, now: int, interval: int, agent: Agent): Outcome {
    var a := FlushTags(s, agent.aggregate);
    if !a.ok then a
    else
      var b := FlushImmediateLogs(a.state, agent.immediate);
      if !b.ok || !PeriodicDue(b.state, now, interval) then b
      else FlushLogs(b.state, now, agent.periodic)
  }

  function Synced(s: State, data: Option<Value>): State {
    s.(cache := data.GetOr(EMPTY))
  }

  // One call of a tag subscriber.
  datatype Call = Call(path: seq<string>, value: Value)

  function Notifications(s: State, data: Value, subscriptions: seq<seq<string>>): seq<Call> {
    var diff := GenerateDiff(s.cache, data, false);
    if IsEmptyObject(diff) then [] else CallsFor(subscriptions, diff)
  }

  function CallsFor(subscriptions: seq<seq<string>>, diff: Value): seq<Call> {
    if subscriptions == [] then []
    else
      var last := subscriptions[|subscriptions| - 1];
      var found := Lookup(last, diff);
      CallsFor(subscriptions[..|subscriptions| - 1], diff) + if found.Some? then [Call(last, found.value)] else []
  }

  function WithoutPath(entries: seq<Entry>, path: seq<string>): seq<Entry> {
    if entries == [] then []
    else
      WithoutPath(entries[..|entries| - 1], path)
      + if entries[|entries| - 1].path == path then [] else [entries[|entries| - 1]]
  }

  lemma {:induction false} WithoutPathIsPart(entries: seq<Entry>, path: seq<string>)
    ensures forall e | e in WithoutPath(entries, path) :: e in entries && e.path != path
  {
    if entries != [] {
      WithoutPathIsPart(entries[..|entries| - 1], path);
    }
  }

  function Registered(s: State, path: seq<string>, triggers: seq<LogTrigger>, default_: Option<Value>): State {
    s.(triggers := WithoutPath(s.triggers, path)
                   + [Entry(path, SetState(triggers, seq(|triggers|, _ => FRESH), default_))])
  }

  // ---- the runtime ----

  class Runtime {
    const logInterval: int
    var tagValues: Value
    var pendingAggregate: Value
    var pendingLog: Value
    var pendingImmediateLog: Value
    var dirty: bool
    var lastLogFlush: Option<int>
    var logTriggers: seq<Entry>
    var published: seq<Value>
    var messages: seq<Value>

    ghost function Abstract(): (s: State)
      reads this
    {
      State(tagValues, pendingAggregate, pendingLog, pendingImmediateLog, dirty, lastLogFlush,
            logTriggers, published, messages)
    }

    ghost predicate Valid()
      reads this
    {
      WellFormed(Abstract())
    }

    constructor (logInterval: int)
      ensures Valid() && this.logInterval == logInterval
      ensures Abstract() == INITIAL
    {
      this.logInterval := logInterval;
      tagValues, pendingAggregate, pendingLog, pendingImmediateLog := EMPTY, EMPTY, EMPTY, EMPTY;
      dirty, lastLogFlush, logTriggers := false, None, [];
      published, messages := [], [];
    }

    method OnTagSync(data: Option<Value>)
      requires Valid()
      modifies this`tagValues
      ensures Valid() && Abstract() == Synced(old(Abstract()), data)
    {
      tagValues := data.GetOr(EMPTY);
    }

    method OnTagUpdate(data: Option<Value>, subscriptions: seq<seq<string>>) returns (calls: seq<Call>)
      requires Valid()
      modifies this`tagValues
      ensures Valid()
      ensures Abstract() == if data.None? then old(Abstract()) else Synced(old(Abstract()), data)
      ensures calls == if data.None? then [] else Notifications(old(Abstract()), data.value, subscriptions)
    {
      if data.None? {
        return [];
      }
      var diff := GenerateDiffLoop(tagValues, data.value, false);
      tagValues := data.value;
      if IsEmptyObject(diff) {
        return [];
      }
      calls := [];
      for i := 0 to |subscriptions|
        invariant tagValues == data.value
        invariant calls == CallsFor(subscriptions[..i], diff)
      {
        var found := LookupLoop(subscriptions[i], diff);
        if found.Some? {
          calls := calls + [Call(subscriptions[i], found.value)];
        }
        assert subscriptions[..i + 1][..i] == subscriptions[..i];
      }
      assert subscriptions[..|subscriptions|] == subscriptions;
    }

    method GetTagValue(appKey: string, key: string) returns (value: Option<Value>)
      ensures value == GetTag(Abstract(), appKey, key)
    {
      var current := ApplyDiffInPlace(tagValues, pendingAggregate, false);
      value := LookupLoop(Scoped(appKey, key), current);
    }

    method EvaluateLogTriggers(path: seq<string>, value: Value) returns (fired: bool)
      requires Valid()
      modifies this`logTriggers
      ensures Valid()
      ensures fired == Fires(old(Abstract()), path, value)
      ensures Abstract() == Evaluated(old(Abstract()), path, value)
    {
      var i := FindEntry(path);
      if i.None? {
        return false;
      }
      var current := ApplyDiffInPlace(tagValues, pendingAggregate, false);
      var prev := LookupLoop(path, current);
      var entry := logTriggers[i.value];
      var after;
      fired, after := EvaluateSet(entry.set_, prev, value);
      logTriggers := logTriggers[i.value := entry.(set_ := after)];
    }

    method FindEntry(path: seq<string>) returns (found: Option<nat>)
      ensures found == IndexOf(logTriggers, path)
    {
      for i := 0 to |logTriggers|
        invariant match IndexOf(logTriggers[i..], path)
                  case None => IndexOf(logTriggers, path).None?
                  case Some(n) => IndexOf(logTriggers, path) == Some(n + i)
      {
        if logTriggers[i].path == path {
          return Some(i);
        }
        assert logTriggers[i..][1..] == logTriggers[i + 1..];
      }
      return None;
    }

    method SetNestedTags(tags: Value, opts: SetOptions, sendOk: bool) returns (ok: bool)
      requires Valid()
      modifies this
      ensures Valid()
      ensures Outcome(Abstract(), ok) == SetNested(old(Abstract()), tags, opts, sendOk)
    {
      if opts.onlyIfChanged {
        var current := ApplyDiffInPlace(tagValues, pendingAggregate, false);
        var diff := GenerateDiffLoop(current, tags, false);
        if IsEmptyObject(diff) {
          return true;
        }
      }
      if opts.log {
        pendingImmediateLog := ApplyDiffInPlace(pendingImmediateLog, tags, false);
        pendingLog := StripPathsInPlace(pendingLog, tags);
      } else {
        pendingLog := ApplyDiffInPlace(pendingLog, tags, false);
      }
      pendingAggregate := ApplyDiffInPlace(pendingAggregate, tags, false);
      if !opts.flush {
        dirty := true;
        return true;
      }
      if !sendOk {
        return false;
      }
      published := published + [pendingAggregate];
      tagValues := ApplyDiffInPlace(tagValues, pendingAggregate, true);
      dirty := false;
      return true;
    }

    method SetTagValue(appKey: string, key: string, value: Value, opts: SetOptions, sendOk: bool) returns (ok: bool)
      requires Valid()
      modifies this
      ensures Valid()
      ensures Outcome(Abstract(), ok) == SetTag(old(Abstract()), Scoped(appKey, key), value, opts, sendOk)
    {
      var path := Scoped(appKey, key);
      var fired := EvaluateLogTriggers(path, value);
      var nested := ConstructLoop(path, value);
      ok := SetNestedTags(nested, opts.(log := opts.log || fired), sendOk);
    }

    method FlushPendingTags(sendOk: bool) returns (ok: bool)
      requires Valid()
      modifies this
      ensures Valid()
      ensures Outcome(Abstract(), ok) == FlushTags(old(Abstract()), sendOk)
    {
      if !dirty {
        return true;
      }
      var data := pendingAggregate;
      dirty, pendingAggregate := false, EMPTY;
      if !sendOk {
        return false;
      }
      published := published + [data];
      tagValues := ApplyDiffInPlace(tagValues, data, true);
      return true;
    }

    method FlushImmediate(sendOk: bool) returns (ok: bool)
      requires Valid()
      modifies this
      ensures Valid()
      ensures Outcome(Abstract(), ok) == FlushImmediateLogs(old(Abstract()), sendOk)
    {
      if IsEmptyObject(pendingImmediateLog) {
        return true;
      }
      var data := pendingImmediateLog;
      pendingImmediateLog := EMPTY;
      if !sendOk {
        return false;
      }
      messages := messages + [data];
      return true;
    }

    method FlushPeriodic(now: int, sendOk: bool) returns (ok: bool)
      requires Valid()
      modifies this
      ensures Valid()
      ensures Outcome(Abstract(), ok) == FlushLogs(old(Abstract()), now, sendOk)
    {
      if IsEmptyObject(pendingLog) {
        return true;
      }
      var data := pendingLog;
      lastLogFlush, pendingLog := Some(now), EMPTY;
      if !sendOk {
        return false;
      }
      messages := messages + [data];
      return true;
    }

    method CommitTags(now: int, agent: Agent) returns (ok: bool)
      requires Valid()
      modifies this
      ensures Valid()
      ensures Outcome(Abstract(), ok) == Commit(old(Abstract()), now, logInterval, agent)
    {
      ok := FlushPendingTags(agent.aggregate);
      if !ok {
        return;
      }
      ok := FlushImmediate(agent.immediate);
      if ok && !IsEmptyObject(pendingLog) && (lastLogFlush.None? || now - lastLogFlush.value >= logInterval) {
        ok := FlushPeriodic(now, agent.periodic);
      }
    }

    method RegisterLogTriggers(appKey: string, key: string, triggers: seq<LogTrigger>, default_: Option<Value>)
      requires Valid()
      modifies this`logTriggers
      ensures Valid()
      ensures Abstract() == Registered(old(Abstract()), Scoped(appKey, key), triggers, default_)
    {
      var path := Scoped(appKey, key);
      var kept := Without(logTriggers, path);
      WithoutPathIsPart(logTriggers, path);
      logTriggers := kept + [Entry(path, SetState(triggers, seq(|triggers|, _ => FRESH), default_))];
    }
  }

  method Without(entries: seq<Entry>, path: seq<string>) returns (kept: seq<Entry>)
    ensures kept == WithoutPath(entries, path)
  {
    kept := [];
    for i := 0 to |entries|
      invariant kept == WithoutPath(entries[..i], path)
    {
      assert entries[..i + 1][..i] == entries[..i];
      if entries[i].path != path {
        kept := kept + [entries[i]];
      }
    }
    assert entries[..|entries|] == entries;
  }
}
