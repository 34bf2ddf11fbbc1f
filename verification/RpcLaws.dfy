// The RPC manager over every interleaving of requests, handler calls, updates and
// deadlines.
module RpcLaws {
  import opened Json
  import opened Wrappers
  import opened Diff
  import opened DiffLaws
  import opened Rpc

  datatype Op =
    | Register(channel: Option<string>, method_: string)
    | Request(e: Event, now: int)
    | Report(handle: nat, call: StatusCall, now: int)
    | Return(handle: nat)
    | Outcome(handle: nat, result: HandlerResult)
    | Update(e: Event)
    | Mark(k: nat)
    | StartCall(id: nat)
    | Deadline(id: nat)

  function Step(s: State, op: Op): State {
    match op
    case Register(channel, method_) => Registered(s, channel, method_)
    case Request(e, now) => HandleRequest(s, e, now)
    case Report(handle, call, now) => ReportStatus(s, handle, call, now)
    case Return(handle) => HandlerReturned(s, handle)
    case Outcome(handle, result) => Respond(s, handle, result)
    case Update(e) => HandleResponse(s, e)
    case Mark(k) => MarkCancelled(s, k)
    case StartCall(id) => BeginCall(s, id)
    case Deadline(id) => CallTimedOut(s, id)
  }

  function Run(s: State, ops: seq<Op>): State
    decreases |ops|
  {
    if ops == [] then s else Run(Step(s, ops[0]), ops[1..])
  }

  lemma {:induction false} RunSplits(s: State, first: seq<Op>, rest: seq<Op>)
    ensures Run(s, first + rest) == Run(Run(s, first), rest)
    decreases |first|
  {
    if first == [] {
      assert first + rest == rest;
    } else {
      assert (first + rest)[1..] == first[1..] + rest;
      RunSplits(Step(s, first[0]), first[1..], rest);
    }
  }

  // ---- the serving side ----

  predicate IsCancelled(s: State, handle: nat) {
    handle < |s.contexts| && s.contexts[handle].cancelled.Some?
  }

  function WritesBy(updates: seq<Write>, handle: nat): seq<Write> {
    if updates == [] then []
    else WritesBy(updates[..|updates| - 1], handle)
         + if updates[|updates| - 1].handle == handle then [updates[|updates| - 1]] else []
  }

  function WritesTo(updates: seq<Write>, id: nat): seq<Write> {
    if updates == [] then []
    else WritesTo(updates[..|updates| - 1], id)
         + if updates[|updates| - 1].id == id then [updates[|updates| - 1]] else []
  }

  // A step sends at most one update, through a context that is not cancelled.
  predicate AddsAllowedWrite(s: State, updates: seq<Write>) {
    var n := |s.updates|;
    |updates| == n + 1 && updates[..n] == s.updates &&
    updates[n].handle < |s.contexts| && s.contexts[updates[n].handle].messageId == Some(updates[n].id)
    && !IsCancelled(s, updates[n].handle)
  }

  lemma StepWrites(s: State, op: Op)
    ensures Step(s, op).updates == s.updates || AddsAllowedWrite(s, Step(s, op).updates)
  {
  }

  // Identity and cancellation of a context survive every step.
  lemma StepKeepsContexts(s: State, op: Op, handle: nat)
    requires handle < |s.contexts|
    ensures var s' := Step(s, op);
      && handle < |s'.contexts|
      && s'.contexts[handle].messageId == s.contexts[handle].messageId
      && s'.contexts[handle].requestId == s.contexts[handle].requestId
      && (IsCancelled(s, handle) ==> IsCancelled(s', handle))
  {
  }

  /** Once its context is marked cancelled, a handler writes nothing more, whatever it
      calls, returns or leaks, in every interleaving. */
  lemma {:induction false} CancelledHandlerIsSilent(s: State, ops: seq<Op>, handle: nat)
    requires IsCancelled(s, handle)
    ensures WritesBy(Run(s, ops).updates, handle) == WritesBy(s.updates, handle)
    decreases |ops|
  {
    if ops != [] {
      var s' := Step(s, ops[0]);
      StepKeepsContexts(s, ops[0], handle);
      StepWrites(s, ops[0]);
      CancelledHandlerIsSilent(s', ops[1..], handle);
    }
  }

  // Every request seen so far had an id of its own, and `inflight` lists exactly the
  // running ones.
  predicate Served(s: State) {
    && (forall i, j | 0 <= i < j < |s.contexts| ::
          s.contexts[i].requestId.Some? ==> s.contexts[i].requestId != s.contexts[j].requestId)
    && (forall i | 0 <= i < |s.contexts| :: Tracked(s, i))
    && (forall m | m in s.inflight ::
          s.inflight[m] < |s.contexts| && s.contexts[s.inflight[m]].requestId == Some(m)
          && s.contexts[s.inflight[m]].phase == Running)
    && (forall w | w in s.updates :: w.handle < |s.contexts| && s.contexts[w.handle].messageId == Some(w.id))
  }

  predicate Tracked(s: State, i: nat)
    requires i < |s.contexts|
  {
    var ctx := s.contexts[i];
    && (ctx.messageId.Some? ==> ctx.messageId == ctx.requestId)
    && (ctx.requestId.Some? && ctx.phase == Running ==>
          ctx.requestId.value in s.inflight && s.inflight[ctx.requestId.value] == i)
  }

  // Snowflake ids: no message is delivered as a request twice.
  predicate FreshRequest(s: State, op: Op) {
    op.Request? && op.e.id.Some? ==> forall ctx | ctx in s.contexts :: ctx.requestId != op.e.id
  }

  predicate FreshRun(s: State, ops: seq<Op>)
    decreases |ops|
  {
    ops != [] ==> FreshRequest(s, ops[0]) && FreshRun(Step(s, ops[0]), ops[1..])
  }

  lemma StepServes(s: State, op: Op)
    requires Served(s) && FreshRequest(s, op)
    ensures Served(Step(s, op))
  {
    match op
    case Request(e, now) => RequestServes(s, e, now);
    case Return(handle) => ReturnServes(s, handle);
    case _ =>
      OtherStepsAreQuiet(s, op);
      QuietServes(s, Step(s, op));
  }

  // A step that starts and ends no handler.
  predicate Quiet(s: State, s': State) {
    && |s'.contexts| == |s.contexts| && s'.inflight == s.inflight
    && (forall i | 0 <= i < |s.contexts| ::
          && s'.contexts[i].messageId == s.contexts[i].messageId
          && s'.contexts[i].requestId == s.contexts[i].requestId
          && (s'.contexts[i].phase == Running <==> s.contexts[i].phase == Running))
    && (s'.updates == s.updates || AddsAllowedWrite(s, s'.updates))
  }

  lemma OtherStepsAreQuiet(s: State, op: Op)
    requires !op.Request? && !op.Return?
    ensures Quiet(s, Step(s, op))
  {
    StepWrites(s, op);
    match op
    case Outcome(handle, result) => OutcomeIsQuiet(s, handle, result);
    case Mark(k) => MarkIsQuiet(s, k);
    case _ =>
  }

  lemma OutcomeIsQuiet(s: State, handle: nat, result: HandlerResult)
    ensures Quiet(s, Respond(s, handle, result))
  {
    StepWrites(s, Outcome(handle, result));
  }

  lemma MarkIsQuiet(s: State, k: nat)
    ensures Quiet(s, MarkCancelled(s, k))
  {
  }

  lemma QuietServes(s: State, s': State)
    requires Served(s) && Quiet(s, s')
    ensures Served(s')
  {
    forall i | 0 <= i < |s.contexts| ensures Tracked(s', i) {
      assert Tracked(s, i);
    }
    if s'.updates != s.updates {
      assert s'.updates == s.updates + [s'.updates[|s.updates|]];
    }
  }

  lemma RequestServes(s: State, e: Event, now: int)
    requires Served(s) && FreshRequest(s, Request(e, now))
    ensures Served(HandleRequest(s, e, now))
  {
    var s' := HandleRequest(s, e, now);
    if s' != s {
      forall i | 0 <= i < |s'.contexts| ensures Tracked(s', i) {
        if i < |s.contexts| {
          assert Tracked(s, i);
          assert s.contexts[i] in s.contexts;
        }
      }
      forall i, j | 0 <= i < j < |s'.contexts| && s'.contexts[i].requestId.Some?
        ensures s'.contexts[i].requestId != s'.contexts[j].requestId
      {
        assert s.contexts[i] in s.contexts;
      }
    }
  }

  lemma ReturnServes(s: State, handle: nat)
    requires Served(s)
    ensures Served(HandlerReturned(s, handle))
  {
    var s' := HandlerReturned(s, handle);
    if s' != s {
      assert Tracked(s, handle);
      forall i | 0 <= i < |s'.contexts| ensures Tracked(s', i) {
        assert Tracked(s, i);
      }
    }
  }

  lemma {:induction false} RunServes(s: State, ops: seq<Op>)
    requires Served(s) && FreshRun(s, ops)
    ensures Served(Run(s, ops))
    decreases |ops|
  {
    if ops != [] {
      StepServes(s, ops[0]);
      RunServes(Step(s, ops[0]), ops[1..]);
    }
  }

  /** No command is left in flight once its handler has returned. */
  lemma InflightIsExactlyRunning(start: State, ops: seq<Op>, m: nat)
    requires start.contexts == [] && start.inflight == map[] && start.updates == [] && FreshRun(start, ops)
    ensures var s := Run(start, ops);
      m in s.inflight <==> exists i | 0 <= i < |s.contexts| ::
        s.contexts[i].requestId == Some(m) && s.contexts[i].phase == Running
  {
    RunServes(start, ops);
    var s := Run(start, ops);
    if i :| 0 <= i < |s.contexts| && s.contexts[i].requestId == Some(m) && s.contexts[i].phase == Running {
      assert Tracked(s, i);
    }
  }

  // ---- the commands in flight, without that assumption ----

  // What `inflight` lists is running.
  predicate ListsRunning(s: State) {
    forall m | m in s.inflight ::
      s.inflight[m] < |s.contexts| && s.contexts[s.inflight[m]].requestId == Some(m)
      && s.contexts[s.inflight[m]].phase == Running
  }

  // Every running command is listed.
  predicate ListsAll(s: State) {
    forall i | 0 <= i < |s.contexts| && s.contexts[i].phase == Running && s.contexts[i].requestId.Some? ::
      s.contexts[i].requestId.value in s.inflight
  }

  // No other handler is running for the command of `handle`.
  predicate Alone(s: State, handle: nat) {
    handle < |s.contexts| && s.contexts[handle].phase == Running && s.contexts[handle].requestId.Some? ==>
      forall j | 0 <= j < |s.contexts| && j != handle && s.contexts[j].phase == Running ::
        s.contexts[j].requestId != s.contexts[handle].requestId
  }

  lemma StepListsRunning(s: State, op: Op)
    requires ListsRunning(s)
    ensures ListsRunning(Step(s, op))
  {
    if !op.Request? && !op.Return? {
      OtherStepsAreQuiet(s, op);
    }
  }

  // A step forgets a running command exactly if it is the return of one of its handlers.
  lemma StepListsAllExactly(s: State, op: Op)
    requires ListsRunning(s) && ListsAll(s)
    ensures ListsAll(Step(s, op)) <==> (op.Return? ==> Alone(s, op.handle))
  {
    match op
    case Request(e, now) => RequestListsAll(s, e, now);
    case Return(handle) => ReturnListsAllExactly(s, handle);
    case _ => OtherStepsAreQuiet(s, op);
  }

  lemma RequestListsAll(s: State, e: Event, now: int)
    requires ListsAll(s)
    ensures ListsAll(HandleRequest(s, e, now))
  {
  }

  lemma ReturnListsAllExactly(s: State, handle: nat)
    requires ListsRunning(s) && ListsAll(s)
    ensures ListsAll(HandlerReturned(s, handle)) <==> Alone(s, handle)
  {
    var s' := HandlerReturned(s, handle);
    if !Alone(s, handle) {
      var j :| 0 <= j < |s.contexts| && j != handle && s.contexts[j].phase == Running
        && s.contexts[j].requestId == s.contexts[handle].requestId;
      assert s'.contexts[j] == s.contexts[j] && s'.contexts[j].requestId.value !in s'.inflight;
    }
  }

  predicate ListsAllThroughout(s: State, ops: seq<Op>)
    decreases |ops|
  {
    ListsAll(s) && (ops != [] ==> ListsAllThroughout(Step(s, ops[0]), ops[1..]))
  }

  predicate ReturnsAlone(s: State, ops: seq<Op>)
    decreases |ops|
  {
    ops != [] ==> (ops[0].Return? ==> Alone(s, ops[0].handle)) && ReturnsAlone(Step(s, ops[0]), ops[1..])
  }

  /** In any run what is listed in flight is running; and all that is running is listed
      throughout the run exactly when each handler that returns is the only one running for
      its command. */
  lemma {:induction false} InflightExactly(s: State, ops: seq<Op>)
    requires ListsRunning(s) && ListsAll(s)
    ensures ListsRunning(Run(s, ops))
    ensures ListsAllThroughout(s, ops) <==> ReturnsAlone(s, ops)
    decreases |ops|
  {
    if ops != [] {
      var s' := Step(s, ops[0]);
      StepListsRunning(s, ops[0]);
      StepListsAllExactly(s, ops[0]);
      if ListsAll(s') {
        InflightExactly(s', ops[1..]);
      } else {
        RunListsRunning(s', ops[1..]);
      }
    }
  }

  lemma {:induction false} RunListsRunning(s: State, ops: seq<Op>)
    requires ListsRunning(s)
    ensures ListsRunning(Run(s, ops))
    decreases |ops|
  {
    if ops != [] {
      StepListsRunning(s, ops[0]);
      RunListsRunning(Step(s, ops[0]), ops[1..]);
    }
  }

  // ---- silence after a cancellation ----

  // Every handler that may answer message `id` has been cancelled.
  predicate AllCancelled(s: State, id: nat) {
    forall h | 0 <= h < |s.contexts| && s.contexts[h].messageId == Some(id) :: s.contexts[h].cancelled.Some?
  }

  predicate Requests(op: Op, id: nat) {
    op.Request? && op.e.id == Some(id)
  }

  lemma StepKeepsAllCancelled(s: State, op: Op, id: nat)
    requires AllCancelled(s, id) && !Requests(op, id)
    ensures AllCancelled(Step(s, op), id)
    ensures WritesTo(Step(s, op).updates, id) == WritesTo(s.updates, id)
  {
    var s' := Step(s, op);
    forall h | 0 <= h < |s'.contexts| && s'.contexts[h].messageId == Some(id) ensures s'.contexts[h].cancelled.Some? {
      if h < |s.contexts| {
        StepKeepsContexts(s, op, h);
      }
    }
    StepWrites(s, op);
  }

  lemma {:induction false} AllCancelledIsSilent(s: State, ops: seq<Op>, id: nat)
    requires AllCancelled(s, id) && forall op | op in ops :: !Requests(op, id)
    ensures WritesTo(Run(s, ops).updates, id) == WritesTo(s.updates, id)
    decreases |ops|
  {
    if ops != [] {
      assert ops[0] in ops;
      StepKeepsAllCancelled(s, ops[0], id);
      AllCancelledIsSilent(Step(s, ops[0]), ops[1..], id);
    }
  }

  /** Cancellation safety, exactly: a message is never updated again, short of being
      delivered as a request again, if and only if every context that answers it is
      cancelled. */
  lemma SilentExactly(s: State, id: nat)
    ensures AllCancelled(s, id) <==>
            forall ops: seq<Op> | (forall op | op in ops :: !Requests(op, id)) ::
              WritesTo(Run(s, ops).updates, id) == WritesTo(s.updates, id)
  {
    if AllCancelled(s, id) {
      forall ops: seq<Op> | (forall op | op in ops :: !Requests(op, id))
        ensures WritesTo(Run(s, ops).updates, id) == WritesTo(s.updates, id)
      {
        AllCancelledIsSilent(s, ops, id);
      }
    } else {
      var h :| 0 <= h < |s.contexts| && s.contexts[h].messageId == Some(id) && s.contexts[h].cancelled.None?;
      UncancelledWrites(s, h, id);
    }
  }

  // One acknowledgement is enough to show it.
  lemma UncancelledWrites(s: State, h: nat, id: nat)
    requires h < |s.contexts| && s.contexts[h].messageId == Some(id) && s.contexts[h].cancelled.None?
    ensures WritesTo(Run(s, [Report(h, Acknowledge, 0)]).updates, id) != WritesTo(s.updates, id)
  {
    var op := Report(h, Acknowledge, 0);
    assert [op][1..] == [];
    assert Run(s, [op]) == Step(s, op);
    var s' := Step(s, op);
    assert s'.updates == s.updates + [s'.updates[|s.updates|]];
    assert s'.updates[..|s.updates|] == s.updates;
  }

  /** With request ids delivered once there is only one such context: once a served command
      is marked cancelled, its message is never updated again. */
  lemma CancelledMessageIsUntouched(start: State, before: seq<Op>, after: seq<Op>, handle: nat, id: nat)
    requires start.contexts == [] && start.inflight == map[] && start.updates == [] && FreshRun(start, before + after)
    requires var s := Run(start, before); IsCancelled(s, handle) && s.contexts[handle].requestId == Some(id)
    ensures WritesTo(Run(start, before + after).updates, id) == WritesTo(Run(start, before).updates, id)
  {
    var s := Run(start, before);
    RunSplits(start, before, after);
    FreshPrefix(start, before, after);
    RunServes(start, before);
    forall h | 0 <= h < |s.contexts| && s.contexts[h].messageId == Some(id) ensures h == handle {
      assert Tracked(s, h);
    }
    NeverRequestedAgain(s, after, handle, id);
    SilentExactly(s, id);
  }

  lemma {:induction false} NeverRequestedAgain(s: State, ops: seq<Op>, handle: nat, id: nat)
    requires handle < |s.contexts| && s.contexts[handle].requestId == Some(id) && FreshRun(s, ops)
    ensures forall op | op in ops :: !Requests(op, id)
    decreases |ops|
  {
    if ops != [] {
      assert s.contexts[handle] in s.contexts;
      StepKeepsContexts(s, ops[0], handle);
      NeverRequestedAgain(Step(s, ops[0]), ops[1..], handle, id);
      assert forall op | op in ops :: op == ops[0] || op in ops[1..];
    }
  }

  lemma {:induction false} FreshPrefix(s: State, before: seq<Op>, after: seq<Op>)
    requires FreshRun(s, before + after)
    ensures FreshRun(s, before) && FreshRun(Run(s, before), after)
    decreases |before|
  {
    if before == [] {
      assert before + after == after;
    } else {
      assert (before + after)[1..] == before[1..] + after;
      FreshPrefix(Step(s, before[0]), before[1..], after);
    }
  }

  predicate Withdrawn(s: State, handle: nat) {
    IsCancelled(s, handle) || exists m | m in s.marking :: m.handle == handle
  }

  /** A cancellation that finds its command running is never dropped: it stays
      outstanding until the context is marked. */
  lemma {:induction false} CancellationIsNotLost(s: State, e: Event, ops: seq<Op>)
    requires ListsRunning(s) && Withdraws(e) && e.id.value in s.inflight
    ensures Withdrawn(Run(HandleResponse(s, e), ops), s.inflight[e.id.value])
  {
    var h, s' := s.inflight[e.id.value], HandleResponse(s, e);
    assert s'.marking[|s.marking|].handle == h;
    WithdrawnLasts(s', ops, h);
  }

  lemma {:induction false} WithdrawnLasts(s: State, ops: seq<Op>, handle: nat)
    requires handle < |s.contexts| && Withdrawn(s, handle)
    ensures Withdrawn(Run(s, ops), handle)
    decreases |ops|
  {
    if ops != [] {
      StepKeepsContexts(s, ops[0], handle);
      StepKeepsWithdrawn(s, ops[0], handle);
      WithdrawnLasts(Step(s, ops[0]), ops[1..], handle);
    }
  }

  lemma StepKeepsWithdrawn(s: State, op: Op, handle: nat)
    requires handle < |s.contexts| && Withdrawn(s, handle)
    ensures Withdrawn(Step(s, op), handle)
  {
    StepKeepsContexts(s, op, handle);
    if !IsCancelled(s, handle) {
      var i :| 0 <= i < |s.marking| && s.marking[i].handle == handle;
      if op.Mark? {
        MarkKeepsWithdrawn(s, op.k, i);
      } else {
        MarkingGrows(s, op);
        assert Step(s, op).marking[i] == s.marking[i];
      }
    }
  }

  lemma MarkingGrows(s: State, op: Op)
    requires !op.Mark?
    ensures s.marking <= Step(s, op).marking
  {
  }

  // Marking one cancellation leaves the others outstanding.
  lemma MarkKeepsWithdrawn(s: State, k: nat, i: nat)
    requires i < |s.marking| && s.marking[i].handle < |s.contexts|
    ensures Withdrawn(MarkCancelled(s, k), s.marking[i].handle)
  {
    var s' := MarkCancelled(s, k);
    if k != i {
      var j := if k < i then i - 1 else i;
      assert s'.marking[j] == s.marking[i];
    }
  }

  /** Unique request ids are needed: a command delivered twice runs twice, a cancellation
      reaches only the later context, and the earlier one still writes. */
  lemma RedeliveryEscapesCancellation(s: State, request: Event, cancel: Event, now: int)
    requires Admitted(s, request, now).Some? && request.id.Some? && !request.oneShot
    requires Withdraws(cancel) && cancel.id == request.id
    ensures var twice := HandleRequest(HandleRequest(s, request, now), request, now);
      var s' := MarkCancelled(HandleResponse(twice, cancel), |s.marking|);
      && IsCancelled(s', |s.contexts| + 1)
      && ReportStatus(s', |s.contexts|, Acknowledge, now).updates
         == s'.updates + [Write(|s.contexts|, request.id.value, StatusPayload(Acknowledge, now).value)]
  {
    AdmittedRequest(s, request, now);
    AdmittedRequest(HandleRequest(s, request, now), request, now);
  }

  /** Nor does `inflight` then list every running command: the return of the first handler
      takes the id out, and a cancellation no longer finds the second. */
  lemma RedeliveryHidesRunning(s: State, request: Event, cancel: Event, now: int)
    requires Admitted(s, request, now).Some? && request.id.Some?
    requires Withdraws(cancel) && cancel.id == request.id
    ensures var twice := HandleRequest(HandleRequest(s, request, now), request, now);
      var s' := HandlerReturned(twice, |s.contexts|);
      && s'.contexts[|s.contexts| + 1].phase == Running
      && s'.contexts[|s.contexts| + 1].requestId == request.id
      && request.id.value !in s'.inflight
      && HandleResponse(s', cancel).marking == s'.marking
  {
    AdmittedRequest(s, request, now);
    AdmittedRequest(HandleRequest(s, request, now), request, now);
  }

  // An admitted request adds one running context; admission does not look at the others.
  lemma AdmittedRequest(s: State, e: Event, now: int)
    requires Admitted(s, e, now).Some? && e.id.Some?
    ensures var ctx := Context(Admitted(s, e, now).value, e.channel,
                if e.oneShot then None else e.id, e.id, None, Running);
      HandleRequest(s, e, now) == s.(contexts := s.contexts + [ctx], inflight := s.inflight[e.id.value := |s.contexts|])
    ensures Admitted(HandleRequest(s, e, now), e, now) == Admitted(s, e, now)
  {
  }

  // ---- the calling side ----

  // The first thing to settle a call: its deadline, or a terminal update.
  function Settled(ops: seq<Op>, id: nat): Option<CallResult> {
    if ops == [] then None
    else
      match ops[0]
      case Deadline(j) => if j == id then Some(TimedOut) else Settled(ops[1..], id)
      case Update(e) =>
        if e.id == Some(id) && e.data.Some? && Verdict(e.data.value).Some? then Verdict(e.data.value)
        else Settled(ops[1..], id)
      case _ => Settled(ops[1..], id)
  }

  // The id is only ever a call's: nothing serves it and no second call reuses it.
  predicate CallersOnly(op: Op, id: nat) {
    (op.Request? ==> op.e.id != Some(id)) && op != StartCall(id)
  }

  predicate CallState(s: State, id: nat, result: Option<CallResult>) {
    && id in s.calls && id !in s.inflight
    && s.calls[id] == (match result case None => Waiting case Some(r) => Resolved(r))
    && (id in s.pending <==> result.None?)
  }

  lemma StepSettles(s: State, op: Op, id: nat)
    requires CallState(s, id, None) && CallersOnly(op, id)
    ensures CallState(Step(s, op), id, Settled([op], id))
  {
    assert [op][1..] == [];
  }

  lemma StepKeepsSettled(s: State, op: Op, id: nat, r: CallResult)
    requires CallState(s, id, Some(r)) && CallersOnly(op, id)
    ensures CallState(Step(s, op), id, Some(r))
  {
  }

  /** A call is resolved once, by the first terminal update or its deadline. */
  lemma {:induction false} CallResolvesOnce(s: State, ops: seq<Op>, id: nat)
    requires CallState(s, id, None) && forall op | op in ops :: CallersOnly(op, id)
    ensures CallState(Run(s, ops), id, Settled(ops, id))
    decreases |ops|
  {
    if ops != [] {
      StepSettles(s, ops[0], id);
      assert ops[0] in ops;
      assert [ops[0]][1..] == [];
      match Settled([ops[0]], id)
      case None => CallResolvesOnce(Step(s, ops[0]), ops[1..], id);
      case Some(r) => SettledStays(Step(s, ops[0]), ops[1..], id, r);
    }
  }

  lemma {:induction false} SettledStays(s: State, ops: seq<Op>, id: nat, r: CallResult)
    requires CallState(s, id, Some(r)) && forall op | op in ops :: CallersOnly(op, id)
    ensures CallState(Run(s, ops), id, Some(r))
    decreases |ops|
  {
    if ops != [] {
      assert ops[0] in ops;
      StepKeepsSettled(s, ops[0], id, r);
      SettledStays(Step(s, ops[0]), ops[1..], id, r);
    }
  }

  // A cancelled command is reported as such, by its method, and never as an ordinary failure.
  lemma CancellationIsNeverAFailure(data: Value)
    ensures CommandIsCancelled(data) <==> Verdict(data).Some? && Verdict(data).value.Cancelled?
    ensures CommandIsCancelled(data) ==>
            var named := data.Obj? && "method" in data.m && data.m["method"].Str?;
            Verdict(data) == Some(Cancelled(if named then data.m["method"].s else "unknown"))
  {
  }

  // ---- what one side writes, the other reads ----

  // The message body left by earlier reports, if it is an object.
  function PriorMessage(record: Value): map<string, Value> {
    var status := Get(record, "status");
    var message := if status.Some? then Get(status.value, "message") else None;
    if message.Some? && message.value.Obj? then message.value.m else map[]
  }

  /** Updates are merged into the message; a success arrives as it was sent exactly when it
      covers what the message already held as its response. */
  lemma SuccessArrives(record: Value, response: Value)
    requires record.Obj?
    ensures var held := Get(record, "response").GetOr(EMPTY);
      var verdict := Verdict(Merge(record, ResultPayload(response)));
      && verdict == Some(Reply(Merge(held, response)))
      && (verdict == Some(Reply(response)) <==> Covered(held, response))
  {
    var held := Get(record, "response").GetOr(EMPTY);
    MergeAt(record, ResultPayload(response), "response");
    if response.Obj? {
      MergeOntoEmpty(response);
    }
    CoveredIsOverwritten(held, response);
    SuccessStatus(record, response);
  }

  // Whatever the status was, it reads as a success.
  lemma SuccessStatus(record: Value, response: Value)
    requires record.Obj?
    ensures var status := Get(Merge(record, ResultPayload(response)), "status");
      && status.Some? && AsStr(Get(status.value, "code")) == Some("success")
  {
    var update := ResultPayload(response);
    MergeAt(record, update, "status");
    var was := Get(record, "status").GetOr(EMPTY);
    if was.Obj? {
      MergeAt(was, update.m["status"], "code");
    }
  }

  /** A failure arrives as it was sent, unless the progress reported before it left a
      cancellation marker in the message, in which case the caller sees a cancellation. */
  lemma ErrorArrives(record: Value, code: string, message: string)
    requires record.Obj?
    ensures var verdict := Verdict(Merge(record, ErrorPayload(code, message)));
      if HasMarker(Some(Obj(PriorMessage(record)))) then verdict.Some? && verdict.value.Cancelled?
      else verdict == Some(Failure(code, Verbatim(message)))
  {
    var update := ErrorPayload(code, message);
    var body, prior := update.m["status"].m["message"], Obj(PriorMessage(record));
    MergeAt(record, update, "status");
    var was := Get(record, "status").GetOr(EMPTY);
    var status := Merge(record, update).m["status"];
    if was.Obj? {
      MergeAt(was, update.m["status"], "code");
      MergeAt(was, update.m["status"], "message");
    }
    ErrorBodyMerged(prior, body, code, message);
    assert Get(status, "message") == Some(Merge(prior, body));
    assert AsStr(Get(status, "code")) == Some("error");
  }

  lemma ErrorBodyMerged(prior: Value, body: Value, code: string, message: string)
    requires prior.Obj? && body == Obj(map["code" := Str(code), "message" := Str(message)])
    ensures var merged := Merge(prior, body);
      && merged.Obj? && Get(merged, "code") == Some(Str(code)) && Get(merged, "message") == Some(Str(message))
      && (HasMarker(Some(merged)) <==> HasMarker(Some(prior)))
    ensures Merge(EMPTY, body) == body
  {
    MergeAt(prior, body, "code");
    MergeAt(prior, body, "message");
    MergeAt(prior, body, "info");
    MergeAt(prior, body, "cancelled_at");
    MergeAt(prior, body, "cancelled_by");
    MergeOntoEmpty(body);
  }

  // Reports merged into the message leave the call waiting and never read as a withdrawal.
  lemma ReportsKeepWaiting(record: Value, call: StatusCall, now: int)
    requires record.Obj? && StatusPayload(call, now).Some?
    ensures var merged := Merge(record, StatusPayload(call, now).value);
      Verdict(merged).None? && !CommandIsCancelled(merged)
  {
    var update := StatusPayload(call, now).value;
    MergeAt(record, update, "status");
    var was := Get(record, "status").GetOr(EMPTY);
    if was.Obj? {
      MergeAt(was, update.m["status"], "code");
    }
  }

  /** A cancel patch marks the message it is merged into, so the command is dropped even if
      its create event arrives afterwards. */
  lemma WithdrawnBeforeArrival(s: State, e: Event, record: Value, patch: Value, now: int)
    requires record.Obj? && CommandIsCancelled(patch) && e.data == Some(Merge(record, patch))
    ensures HandleRequest(s, e, now) == s
  {
    var status := patch.m["status"];
    MergeAt(record, patch, "status");
    var was := Get(record, "status").GetOr(EMPTY);
    if was.Obj? {
      MergeAt(was, status, "code");
      MergeAt(was, status, "message");
      var message := status.m["message"];
      var prior := Get(was, "message").GetOr(EMPTY);
      if prior.Obj? && message.Obj? {
        MergeAt(prior, message, "info");
        MergeAt(prior, message, "cancelled_at");
        MergeAt(prior, message, "cancelled_by");
      }
    }
    assert CommandIsCancelled(Merge(record, patch));
  }
}
