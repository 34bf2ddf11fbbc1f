// What the RPC manager owes: a request sent to it is served, a served request is answered
// once and the caller reads the answer, and a cancellation is recognised and handed on.
module RpcDelivery {
  import opened Json
  import opened Wrappers
  import opened Diff
  import opened DiffLaws
  import opened Rpc
  import opened RpcLaws

  // ---- requests ----

  predicate Handled(s: State, channel: string, method_: string) {
    (Some(channel), method_) in s.handlers || (None, method_) in s.handlers
  }

  /** A request as `call_with` writes it is served by every manager with a handler for it,
      exactly while it has not expired and if it names no other app. */
  lemma RequestIsServedExactly(s: State, channel: string, method_: string, params: Option<Value>, opts: CallOptions,
                               id: nat, oneShot: bool, createdMs: int, now: int)
    ensures var e := Event(channel, Some(id), Some(RequestPayload(method_, params, opts)), oneShot, createdMs);
      var served := Handled(s, channel, method_)
        && (opts.appKey.Some? ==> s.appKey == opts.appKey)
        && (opts.expiresAfter.Some? ==> now < createdMs + opts.expiresAfter.value);
      var context := Context(method_, channel, if oneShot then None else Some(id), Some(id), None, Running);
      HandleRequest(s, e, now) ==
      if served then s.(contexts := s.contexts + [context], inflight := s.inflight[id := |s.contexts|]) else s
  {
    var data := RequestPayload(method_, params, opts);
    PayloadReads(method_, params, opts);
    NotCancelled(data);
    ServedAsRead(s, channel, method_, opts, id, oneShot, createdMs, now, data);
  }

  // The parts of a request payload that its receiver reads.
  predicate ReadsAs(data: Value, method_: string, opts: CallOptions) {
    && Get(data, "type") == Some(Str("rpc")) && Get(data, "method") == Some(Str(method_))
    && Get(data, "request").Some? && Get(data, "status") == Some(Single("code", Str("sent")))
    && Get(data, "app_key") == AsText(opts.appKey)
    && Get(data, "expires_after")
       == if opts.expiresAfter.Some? then Some(IntValue(opts.expiresAfter.value)) else None
  }

  lemma WithReads(data: map<string, Value>, k: string, v: Option<Value>)
    ensures forall j | j != k :: Get(Obj(With(data, k, v)), j) == Get(Obj(data), j)
    ensures Get(Obj(With(data, k, v)), k) == if v.Some? then v else Get(Obj(data), k)
  {
  }

  lemma BaseReads(method_: string, params: Option<Value>)
    ensures var data := Obj(RequestBase(method_, params));
      && Get(data, "type") == Some(Str("rpc")) && Get(data, "method") == Some(Str(method_))
      && Get(data, "request").Some? && Get(data, "status") == Some(Single("code", Str("sent")))
      && Get(data, "app_key").None? && Get(data, "expires_after").None?
  {
  }

  lemma OptionsRead(data: map<string, Value>, opts: CallOptions)
    requires Get(Obj(data), "app_key").None? && Get(Obj(data), "expires_after").None?
    ensures var r := Obj(WithOptions(data, opts));
      && (forall j | j in {"type", "method", "request", "status"} :: Get(r, j) == Get(Obj(data), j))
      && Get(r, "app_key") == AsText(opts.appKey)
      && Get(r, "expires_after")
         == if opts.expiresAfter.Some? then Some(IntValue(opts.expiresAfter.value)) else None
  {
    var expiry := if opts.expiresAfter.Some? then Some(IntValue(opts.expiresAfter.value)) else None;
    var addressed := With(data, "app_key", AsText(opts.appKey));
    var acted := With(addressed, "actor", opts.actor);
    var reasoned := With(acted, "reason", AsText(opts.reason));
    var audited := With(reasoned, "old_value", opts.oldValue);
    WithReads(data, "app_key", AsText(opts.appKey));
    WithReads(addressed, "actor", opts.actor);
    WithReads(acted, "reason", AsText(opts.reason));
    WithReads(reasoned, "old_value", opts.oldValue);
    WithReads(audited, "expires_after", expiry);
    WithReads(With(audited, "expires_after", expiry), "retry_of", AsText(opts.retryOf));
  }

  lemma PayloadReads(method_: string, params: Option<Value>, opts: CallOptions)
    ensures ReadsAs(RequestPayload(method_, params, opts), method_, opts)
  {
    BaseReads(method_, params);
    OptionsRead(RequestBase(method_, params), opts);
  }

  lemma NotCancelled(data: Value)
    requires Get(data, "status") == Some(Single("code", Str("sent")))
    ensures !CommandIsCancelled(data)
  {
    assert Get(Single("code", Str("sent")), "code") == Some(Str("sent"));
  }

  lemma ServedAsRead(s: State, channel: string, method_: string, opts: CallOptions, id: nat, oneShot: bool,
                     createdMs: int, now: int, data: Value)
    requires ReadsAs(data, method_, opts) && !CommandIsCancelled(data)
    ensures var served := Handled(s, channel, method_)
        && (opts.appKey.Some? ==> s.appKey == opts.appKey)
        && (opts.expiresAfter.Some? ==> now < createdMs + opts.expiresAfter.value);
      var context := Context(method_, channel, if oneShot then None else Some(id), Some(id), None, Running);
      HandleRequest(s, Event(channel, Some(id), Some(data), oneShot, createdMs), now) ==
      if served then s.(contexts := s.contexts + [context], inflight := s.inflight[id := |s.contexts|]) else s
  {
  }

  // And keeps its caller waiting when it comes back.
  lemma RequestKeepsWaiting(method_: string, params: Option<Value>, opts: CallOptions)
    ensures Verdict(RequestPayload(method_, params, opts)).None?
  {
    PayloadReads(method_, params, opts);
    assert Get(Single("code", Str("sent")), "code") == Some(Str("sent"));
  }

  // Anything that is not a request starts nothing.
  lemma OthersAreIgnored(s: State, e: Event, now: int)
    requires e.data.Some? ==>
      || AsStr(Get(e.data.value, "type")) != Some("rpc") || AsStr(Get(e.data.value, "method")).None?
      || Get(e.data.value, "request").None? || CommandIsCancelled(e.data.value)
      || !Handled(s, e.channel, AsStr(Get(e.data.value, "method")).value)
    ensures HandleRequest(s, e, now) == s
  {
  }

  // ---- answers ----

  function Expected(result: HandlerResult): CallResult {
    match result
    case Answer(response) => Reply(response)
    case Fault(code, message) => Failure(code, Verbatim(message))
  }

  /** The outcome of a handler that came back is written, once, as an update its caller
      reads as that outcome; unless it was cancelled or its request cannot be answered. */
  lemma OutcomeIsWrittenExactly(s: State, handle: nat, result: HandlerResult)
    requires handle < |s.contexts| && s.contexts[handle].phase == Returned
    ensures var ctx, s' := s.contexts[handle], Step(s, Outcome(handle, result));
      && s'.contexts == s.contexts[handle := ctx.(phase := Finished)]
      && if ctx.messageId.None? || ctx.cancelled.Some? then s'.updates == s.updates
         else exists d :: s'.updates == s.updates + [Write(handle, ctx.messageId.value, d)]
                          && Verdict(d) == Some(Expected(result))
  {
    var d := match result
      case Answer(response) => ResultPayload(response)
      case Fault(code, message) => ErrorPayload(code, message);
    assert Verdict(d) == Some(Expected(result));
  }

  // The terminal updates written through a context.
  function Answers(updates: seq<Write>, handle: nat): seq<Write> {
    if updates == [] then []
    else
      var last := updates[|updates| - 1];
      Answers(updates[..|updates| - 1], handle)
      + if last.handle == handle && Verdict(last.data).Some? then [last] else []
  }

  lemma AnswersAppend(updates: seq<Write>, w: Write, handle: nat)
    ensures Answers(updates + [w], handle)
            == Answers(updates, handle) + if w.handle == handle && Verdict(w.data).Some? then [w] else []
  {
    assert (updates + [w])[..|updates|] == updates;
  }

  // Not answered before the outcome, once after it.
  predicate AnsweredOnce(s: State) {
    && (forall w | w in s.updates :: w.handle < |s.contexts|)
    && forall h | 0 <= h < |s.contexts| :: Answered(s, h)
  }

  predicate Answered(s: State, h: nat)
    requires h < |s.contexts|
  {
    var ctx, n := s.contexts[h], |Answers(s.updates, h)|;
    && n <= 1 && (ctx.phase != Finished ==> n == 0)
    && (ctx.phase == Finished && ctx.messageId.Some? && ctx.cancelled.None? ==> n == 1)
  }

  lemma {:induction false} NoAnswersYet(updates: seq<Write>, h: nat)
    requires forall w | w in updates :: w.handle != h
    ensures Answers(updates, h) == []
  {
    if updates != [] {
      NoAnswersYet(updates[..|updates| - 1], h);
    }
  }

  // A status report is no answer.
  lemma ReportIsNoAnswer(call: StatusCall, now: int)
    requires StatusPayload(call, now).Some?
    ensures Verdict(StatusPayload(call, now).value).None?
  {
    MergeOntoEmpty(StatusPayload(call, now).value);
    ReportsKeepWaiting(EMPTY, call, now);
  }

  lemma StepAnswersOnce(s: State, op: Op)
    requires AnsweredOnce(s)
    ensures AnsweredOnce(Step(s, op))
  {
    match op
    case Request(e, now) => RequestAnswersOnce(s, e, now);
    case Report(handle, call, now) => ReportAnswersOnce(s, handle, call, now);
    case Outcome(handle, result) => OutcomeAnswersOnce(s, handle, result);
    case Return(handle) => ReturnAnswersOnce(s, handle);
    case Mark(k) => MarkAnswersOnce(s, k);
    case _ => SameAnswersOnce(s, Step(s, op));
  }

  lemma SameAnswersOnce(s: State, s': State)
    requires AnsweredOnce(s) && s'.contexts == s.contexts && s'.updates == s.updates
    ensures AnsweredOnce(s')
  {
    forall h | 0 <= h < |s'.contexts| ensures Answered(s', h) {
      assert Answered(s, h);
    }
  }

  lemma RequestAnswersOnce(s: State, e: Event, now: int)
    requires AnsweredOnce(s)
    ensures AnsweredOnce(HandleRequest(s, e, now))
  {
    var s' := HandleRequest(s, e, now);
    forall h | 0 <= h < |s'.contexts| ensures Answered(s', h) {
      if h < |s.contexts| {
        assert Answered(s, h);
      } else {
        NoAnswersYet(s.updates, h);
      }
    }
  }

  lemma ReportAnswersOnce(s: State, handle: nat, call: StatusCall, now: int)
    requires AnsweredOnce(s)
    ensures AnsweredOnce(ReportStatus(s, handle, call, now))
  {
    var s' := ReportStatus(s, handle, call, now);
    if s' != s {
      ReportIsNoAnswer(call, now);
    }
    forall h | 0 <= h < |s'.contexts| ensures Answered(s', h) {
      assert Answered(s, h);
      if s' != s {
        AnswersAppend(s.updates, s'.updates[|s.updates|], h);
      }
    }
  }

  // The step of an outcome: done, and one answer more if it may be written.
  predicate Done(s: State, s': State, handle: nat)
    requires handle < |s.contexts|
  {
    var ctx := s.contexts[handle];
    && s'.contexts == s.contexts[handle := ctx.(phase := Finished)]
    && if ctx.messageId.None? || ctx.cancelled.Some? then s'.updates == s.updates
       else
         && |s'.updates| == |s.updates| + 1 && s'.updates[..|s.updates|] == s.updates
         && s'.updates[|s.updates|].handle == handle && Verdict(s'.updates[|s.updates|].data).Some?
  }

  lemma OutcomeIsDone(s: State, handle: nat, result: HandlerResult)
    requires handle < |s.contexts| && s.contexts[handle].phase == Returned
    ensures Done(s, Respond(s, handle, result), handle)
  {
    OutcomeIsWrittenExactly(s, handle, result);
  }

  lemma DoneAnswersOnce(s: State, s': State, handle: nat)
    requires AnsweredOnce(s) && handle < |s.contexts| && s.contexts[handle].phase == Returned && Done(s, s', handle)
    ensures AnsweredOnce(s')
  {
    if s'.updates != s.updates {
      assert s'.updates == s.updates + [s'.updates[|s.updates|]];
    }
    forall h | 0 <= h < |s'.contexts| ensures Answered(s', h) {
      assert Answered(s, h);
      if s'.updates != s.updates {
        AnswersAppend(s.updates, s'.updates[|s.updates|], h);
      }
    }
  }

  lemma OutcomeAnswersOnce(s: State, handle: nat, result: HandlerResult)
    requires AnsweredOnce(s)
    ensures AnsweredOnce(Respond(s, handle, result))
  {
    if handle < |s.contexts| && s.contexts[handle].phase == Returned {
      OutcomeIsDone(s, handle, result);
      DoneAnswersOnce(s, Respond(s, handle, result), handle);
    }
  }

  lemma ReturnAnswersOnce(s: State, handle: nat)
    requires AnsweredOnce(s)
    ensures AnsweredOnce(HandlerReturned(s, handle))
  {
    var s' := HandlerReturned(s, handle);
    forall h | 0 <= h < |s'.contexts| ensures Answered(s', h) {
      assert Answered(s, h);
    }
  }

  lemma MarkAnswersOnce(s: State, k: nat)
    requires AnsweredOnce(s)
    ensures AnsweredOnce(MarkCancelled(s, k))
  {
    var s' := MarkCancelled(s, k);
    forall h | 0 <= h < |s'.contexts| ensures Answered(s', h) {
      assert Answered(s, h);
    }
  }

  /** In every interleaving a served request is answered at most once, not before its handler
      is done, and exactly once by then unless it was cancelled or cannot be answered. */
  lemma {:induction false} RunAnswersOnce(s: State, ops: seq<Op>)
    requires AnsweredOnce(s)
    ensures AnsweredOnce(Run(s, ops))
    decreases |ops|
  {
    if ops != [] {
      StepAnswersOnce(s, ops[0]);
      RunAnswersOnce(Step(s, ops[0]), ops[1..]);
    }
  }

  /** From handler to caller: what the handler returns, merged into the message and read by
      the manager that waits for it, resolves the call with that outcome; a response is
      merged with the one held before, and a cancellation marker in an earlier report turns
      a fault into a cancellation. */
  lemma AnswerArrives(s: State, handle: nat, result: HandlerResult, record: Value, caller: State, channel: string)
    requires handle < |s.contexts| && s.contexts[handle].phase == Returned
    requires s.contexts[handle].messageId.Some? && s.contexts[handle].cancelled.None?
    requires var id := s.contexts[handle].messageId.value; CallState(caller, id, None)
    requires record.Obj?
    ensures var id := s.contexts[handle].messageId.value;
      var w := Step(s, Outcome(handle, result)).updates[|s.updates|];
      var e := Event(channel, Some(id), Some(Merge(record, w.data)), false, 0);
      var after := HandleResponse(caller, e);
      && w.handle == handle && w.id == id && id !in after.pending
      && (result.Answer? ==>
            after.calls[id] == Resolved(Reply(Merge(Get(record, "response").GetOr(EMPTY), result.response))))
      && (result.Fault? && !HasMarker(Some(Obj(PriorMessage(record)))) ==>
            after.calls[id] == Resolved(Expected(result)))
  {
    match result
    case Answer(response) => SuccessArrives(record, response);
    case Fault(code, message) => ErrorArrives(record, code, message);
  }

  // ---- calls ----

  // A call starts waiting, if its id serves no request.
  lemma BeginCallWaits(s: State, id: nat)
    requires id !in s.inflight
    ensures CallState(BeginCall(s, id), id, None)
  {
  }

  /** An update ends a call exactly when its status is a success or an error, and a deadline
      always does. */
  lemma TerminalExactly(data: Value)
    ensures var code := AsStr(Get(Get(data, "status").GetOr(Null), "code"));
      Verdict(data).Some? <==> code == Some("success") || code == Some("error")
  {
  }

  // What an error that no manager wrote reads as: the parts it has, and `UNKNOWN` without a code.
  lemma ErrorReadsAs(data: Value, status: Value)
    requires Get(data, "status") == Some(status) && AsStr(Get(status, "code")) == Some("error")
    requires !CommandIsCancelled(data)
    ensures var body := Get(status, "message");
      var code := AsStr(Get(body.GetOr(Null), "code")).GetOr("UNKNOWN");
      var text := if body.Some? && body.value.Obj? then Get(body.value, "message") else body;
      Verdict(data) == Some(Failure(if body.Some? && body.value.Obj? then code else "UNKNOWN",
        match text case None => NoText case Some(Str(t)) => Verbatim(t) case Some(v) => Rendered(v)))
  {
  }

  // ---- reports ----

  // A status merged into a message: its code and every plain part of its message.
  lemma StatusReads(record: Value, code: string, message: Value)
    requires record.Obj? && message.Obj?
    ensures var status := Get(Merge(record, Single("status", Status(code, message))), "status").GetOr(Null);
      && Get(status, "code") == Some(Str(code))
      && forall k | k in message.m && !message.m[k].Obj? ::
           Get(Get(status, "message").GetOr(Null), k) == Some(message.m[k])
  {
    var update := Status(code, message);
    MergeAt(record, Single("status", update), "status");
    var was := Get(record, "status").GetOr(EMPTY);
    if was.Obj? {
      MergeAt(was, update, "code");
      MergeAt(was, update, "message");
      MessageReads(Get(was, "message").GetOr(EMPTY), message);
      MergeOntoEmpty(message);
    }
  }

  lemma MessageReads(prior: Value, message: Value)
    requires message.Obj?
    ensures forall k | k in message.m && !message.m[k].Obj? :: Get(Merge(prior, message), k) == Some(message.m[k])
  {
    if prior.Obj? {
      forall k | k in message.m && !message.m[k].Obj? ensures Get(Merge(prior, message), k) == Some(message.m[k]) {
        MergeAt(prior, message, k);
      }
    }
  }

  // A report's status and message as a reader of the message finds them.
  function CodeAfter(record: Value, update: Value): Option<Value> {
    Get(Get(Merge(record, update), "status").GetOr(Null), "code")
  }

  function TextAfter(record: Value, update: Value, k: string): Option<Value> {
    Get(Get(Get(Merge(record, update), "status").GetOr(Null), "message").GetOr(Null), k)
  }

  /** Progress, merged into any message, reads as pending, with its text and every plain
      field it gave. */
  lemma ProgressReads(record: Value, text: Option<string>, fields: Value, now: int)
    requires record.Obj? && (fields.Obj? || fields.Null?)
    ensures var payload := StatusPayload(Progress(text, fields), now);
      && payload.Some? && CodeAfter(record, payload.value) == Some(Str("pending"))
      && (text.Some? ==> TextAfter(record, payload.value, "text") == Some(Str(text.value)))
      && (forall k | fields.Obj? && k in fields.m && !fields.m[k].Obj? && (text.Some? ==> k != "text") ::
            TextAfter(record, payload.value, k) == Some(fields.m[k]))
  {
    var given := if fields.Obj? then fields.m else map[];
    var message := Obj(if text.Some? then given["text" := Str(text.value)] else given);
    StatusReads(record, "pending", message);
    assert StatusPayload(Progress(text, fields), now).value == Single("status", Status("pending", message));
  }

  // An acknowledgement reads as such with its time.
  lemma AcknowledgementReads(record: Value, now: int)
    requires record.Obj?
    ensures var payload := StatusPayload(Acknowledge, now);
      && payload.Some? && CodeAfter(record, payload.value) == Some(Str("acknowledged"))
      && TextAfter(record, payload.value, "timestamp") == Some(Number(Int(now)))
  {
    StatusReads(record, "acknowledged", Single("timestamp", IntValue(now)));
  }

  // A deferral reads as such with its time and the one it promises.
  lemma DeferralReads(record: Value, seconds: real, now: int)
    requires record.Obj? && seconds >= 0.0
    ensures var payload := StatusPayload(Defer(seconds), now);
      && payload.Some? && CodeAfter(record, payload.value) == Some(Str("deferred"))
      && TextAfter(record, payload.value, "at") == Some(Number(Int(now)))
      && TextAfter(record, payload.value, "until") == Some(Number(Int(now + (seconds * 1000.0).Floor)))
  {
    var until := Obj(map["until" := IntValue(now + Truncate(seconds * 1000.0)), "at" := IntValue(now)]);
    StatusReads(record, "deferred", until);
    assert until.m["until"] == IntValue(now + Truncate(seconds * 1000.0)) && until.m["at"] == IntValue(now);
    assert StatusPayload(Defer(seconds), now).value == Single("status", Status("deferred", until));
  }

  // Exactly the reports with fields that are neither an object nor null fail.
  lemma ReportFailsExactly(call: StatusCall, now: int)
    ensures StatusPayload(call, now).None? <==> call.Progress? && !call.fields.Obj? && call.fields != Null
  {
  }

  // ---- cancellations ----

  predicate Blanks(s: string) {
    forall c | c in s :: IsWhitespace(c)
  }

  lemma {:induction false} TrimExactly(a: string, core: string, b: string)
    requires Blanks(a) && Blanks(b)
    requires core != "" && !IsWhitespace(core[0]) && !IsWhitespace(core[|core| - 1])
    ensures Trim(a + core + b) == core
    decreases |a| + |b|
  {
    var s := a + core + b;
    if a != "" {
      assert s[0] == a[0] && a[0] in a && s[1..] == a[1..] + core + b;
      TrimExactly(a[1..], core, b);
    } else if b != "" {
      assert s[0] == core[0] && s[|s| - 1] == b[|b| - 1] && b[|b| - 1] in b;
      assert s[..|s| - 1] == a + core + b[..|b| - 1];
      TrimExactly(a, core, b[..|b| - 1]);
    } else {
      assert s == core;
    }
  }

  function Cancelling(message: Value): Value {
    Single("status", Status("error", message))
  }

  /** The site's cancellation is recognised with all its marks and with any one of them. */
  lemma SiteCancelIsSeen(when: Value, who: Value)
    ensures CommandIsCancelled(Cancelling(
              Obj(map["info" := Str("Command cancelled"), "cancelled_at" := when, "cancelled_by" := who])))
    ensures CommandIsCancelled(Cancelling(Single("cancelled_at", when)))
    ensures CommandIsCancelled(Cancelling(Single("cancelled_by", who)))
  {
  }

  /** Its text is recognised alone or as the message's info, in either spelling, any case and
      any blanks around it; and no other text is. */
  lemma CancelTextIsSeen(a: string, text: string, b: string)
    requires Blanks(a) && Blanks(b)
    requires text != "" && !IsWhitespace(text[0]) && !IsWhitespace(text[|text| - 1])
    ensures var named := ToLower(text) == "command cancelled" || ToLower(text) == "command canceled";
      && (CommandIsCancelled(Cancelling(Single("info", Str(a + text + b)))) <==> named)
      && (CommandIsCancelled(Cancelling(Str(a + text + b))) <==> named)
  {
    TrimExactly(a, text, b);
  }

  // Blanks are what Unicode calls white space, tabs and line ends among them, and case is
  // that of the Latin letters.
  lemma BlanksAndCases(c: char)
    ensures IsWhitespace(' ') && IsWhitespace('\t') && IsWhitespace('\n') && IsWhitespace('\r')
    ensures '!' <= c <= '~' ==> !IsWhitespace(c)
    ensures 'a' <= c <= 'z' ==> ToLower([c]) == [c] && ToLower([(c as int - 32) as char]) == [c]
    ensures !('A' <= c <= 'Z') ==> ToLower([c]) == [c]
  {
  }

  // Milliseconds are cut toward zero.
  lemma TruncateCutsTowardZero(r: real)
    ensures var t := Truncate(r) as real;
      if r >= 0.0 then t <= r < t + 1.0 else t - 1.0 < r <= t
  {
  }

  /** A cancellation of a running command, once marked, is what its handler finds: the
      context is cancelled, with the message body that said so. */
  lemma CancellationReaches(s: State, e: Event)
    requires ListsRunning(s) && Withdraws(e) && e.id.value in s.inflight
    ensures var h := s.inflight[e.id.value];
      var s' := MarkCancelled(HandleResponse(s, e), |s.marking|);
      var message := Get(Get(e.data.value, "status").GetOr(Null), "message").GetOr(Null);
      && s'.contexts == s.contexts[h := s.contexts[h].(cancelled := Some(if message.Obj? then message else EMPTY))]
      && s'.marking == s.marking && s'.updates == s.updates
  {
    var t := HandleResponse(s, e);
    assert t.marking[..|s.marking|] + t.marking[|s.marking| + 1..] == s.marking;
  }
}
