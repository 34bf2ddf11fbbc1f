// RPC over channel messages (rpc.rs): the message formats, the manager's state and
// its critical sections. Contexts are shared between the manager and its handlers,
// so they are named here by a handle, their index in `contexts`.
module Rpc {
  import opened Json
  import opened Wrappers

  // ---- reading payloads ----

  function AsStr(v: Option<Value>): Option<string> {
    if v.Some? && v.value.Str? then Some(v.value.s) else None
  }

  // Unicode White_Space, which `str::trim` removes.
  predicate IsWhitespace(c: char) {
    var n := c as int;
    9 <= n <= 13 || n == 0x20 || n == 0x85 || n == 0xA0 || n == 0x1680 || 0x2000 <= n <= 0x200A
    || n == 0x2028 || n == 0x2029 || n == 0x202F || n == 0x205F || n == 0x3000
  }

  function Trim(s: string): string {
    if s != "" && IsWhitespace(s[0]) then Trim(s[1..])
    else if s != "" && IsWhitespace(s[|s| - 1]) then Trim(s[..|s| - 1])
    else s
  }

  function ToLower(s: string): string {
    seq(|s|, i requires 0 <= i < |s| => if 'A' <= s[i] <= 'Z' then (s[i] as int + 32) as char else s[i])
  }

  predicate IsCancelledText(text: string) {
    var t := ToLower(Trim(text));
    t == "command cancelled" || t == "command canceled"
  }

  // Whether a `message` body carries the site's cancellation marker.
  predicate HasMarker(message: Option<Value>) {
    match message
    case Some(Str(text)) => IsCancelledText(text)
    case Some(Obj(m)) =>
      "cancelled_at" in m || "cancelled_by" in m || ("info" in m && m["info"].Str? && IsCancelledText(m["info"].s))
    case _ => false
  }

  predicate StatusIsCancelled(status: Value) {
    AsStr(Get(status, "code")) == Some("error") && HasMarker(Get(status, "message"))
  }

  predicate CommandIsCancelled(data: Value) {
    var status := Get(data, "status");
    status.Some? && StatusIsCancelled(status.value)
  }

  // `as i64` on a float truncates toward zero.
  function Truncate(r: real): int {
    if r < 0.0 then -((-r).Floor) else r.Floor
  }

  function ExpiresAt(createdMs: int, data: Value): Option<int> {
    var after := Get(data, "expires_after");
    if after.Some? && after.value.Number? then Some(createdMs + Truncate(AsReal(after.value.n))) else None
  }

  predicate IsExpired(createdMs: int, data: Value, now: int) {
    var at := ExpiresAt(createdMs, data);
    at.Some? && now >= at.value
  }

  // ---- writing payloads ----

  function Status(code: string, message: Value): Value {
    Obj(map["code" := Str(code), "message" := message])
  }

  function ResultPayload(response: Value): Value {
    Obj(map["status" := Status("success", Null), "response" := response])
  }

  function ErrorPayload(code: string, message: string): Value {
    Obj(map["status" := Status("error", Obj(map["code" := Str(code), "message" := Str(message)])), "response" := EMPTY])
  }

  datatype StatusCall =
    | Progress(text: Option<string>, fields: Value)
    | Acknowledge
    | Defer(seconds: real)

  // `CallOptions`: what a call may carry; times in milliseconds.
  datatype CallOptions = CallOptions(
    appKey: Option<string>, actor: Option<Value>, reason: Option<string>, oldValue: Option<Value>,
    expiresAfter: Option<nat>, retryOf: Option<string>)

  function With(data: map<string, Value>, k: string, v: Option<Value>): map<string, Value> {
    if v.Some? then data[k := v.value] else data
  }

  function AsText(s: Option<string>): Option<Value> {
    if s.Some? then Some(Str(s.value)) else None
  }

  function RequestBase(method_: string, params: Option<Value>): map<string, Value> {
    map["type" := Str("rpc"), "method" := Str(method_), "request" := params.GetOr(EMPTY),
        "status" := Single("code", Str("sent")), "response" := EMPTY]
  }

  function WithOptions(data: map<string, Value>, opts: CallOptions): map<string, Value> {
    var expiry := if opts.expiresAfter.Some? then Some(IntValue(opts.expiresAfter.value)) else None;
    var addressed := With(data, "app_key", AsText(opts.appKey));
    var acted := With(addressed, "actor", opts.actor);
    var reasoned := With(acted, "reason", AsText(opts.reason));
    var audited := With(reasoned, "old_value", opts.oldValue);
    With(With(audited, "expires_after", expiry), "retry_of", AsText(opts.retryOf))
  }

  // `request_payload`.
  function RequestPayload(method_: string, params: Option<Value>, opts: CallOptions): Value {
    Obj(WithOptions(RequestBase(method_, params), opts))
  }

  function IntValue(i: int): Value {
    Number(Int(i))
  }

  // None: the progress fields are neither an object nor null.
  function StatusPayload(call: StatusCall, now: int): Option<Value> {
    match call
    case Progress(text, fields) =>
      if !fields.Obj? && !fields.Null? then None
      else
        var given := if fields.Obj? then fields.m else map[];
        var message := if text.Some? then given["text" := Str(text.value)] else given;
        Some(Single("status", Status("pending", Obj(message))))
    case Acknowledge =>
      Some(Single("status", Status("acknowledged", Single("timestamp", IntValue(now)))))
    case Defer(seconds) =>
      Some(Single("status", Status("deferred",
        Obj(map["until" := IntValue(now + Truncate(seconds * 1000.0)), "at" := IntValue(now)]))))
  }

  // ---- the manager ----

  datatype Event = Event(channel: string, id: Option<nat>, data: Option<Value>, oneShot: bool, createdMs: int)

  datatype Phase = Running | Returned | Finished

  // `messageId` is absent for one-shots, which cannot be answered.
  datatype Context = Context(
    method_: string, channel: string, messageId: Option<nat>, requestId: Option<nat>,
    cancelled: Option<Value>, phase: Phase)

  datatype Write = Write(handle: nat, id: nat, data: Value)

  // An error's message: text, or a JSON value rendered as text.
  datatype Text = Verbatim(text: string) | Rendered(value: Value) | NoText

  datatype CallResult = Reply(response: Value) | Failure(code: string, message: Text)
    | Cancelled(method_: string) | TimedOut

  datatype Call = Waiting | Resolved(result: CallResult)

  datatype Marking = Marking(handle: nat, status: Value)

  // `marking` holds cancellations looked up but not yet marked; `updates` is every
  // message update sent; `calls` is what each outgoing call has come to.
  datatype State = State(
    appKey: Option<string>, handlers: set<(Option<string>, string)>, contexts: seq<Context>, inflight: map<nat, nat>,
    marking: seq<Marking>, updates: seq<Write>, pending: set<nat>, calls: map<nat, Call>)

  // `register_handler`; no channel: the handler serves every channel.
  function Registered(s: State, channel: Option<string>, method_: string): State {
    s.(handlers := s.handlers + {(channel, method_)})
  }

  // The method to run for a request, after every check of `handle_request`.
  function Admitted(s: State, e: Event, now: int): Option<string> {
    if e.data.None? then None
    else
      var data := e.data.value;
      var method_, target := AsStr(Get(data, "method")), AsStr(Get(data, "app_key"));
      if AsStr(Get(data, "type")) != Some("rpc") || method_.None? then None
      else if target.Some? && s.appKey != target then None
      else if Get(data, "request").None? then None
      else if e.id.Some? && IsExpired(e.createdMs, data, now) then None
      else if CommandIsCancelled(data) then None
      else if (Some(e.channel), method_.value) !in s.handlers && (None, method_.value) !in s.handlers then None
      else method_
  }

  // Start serving a request: its context goes in flight before the handler runs.
  function HandleRequest(s: State, e: Event, now: int): State {
    var method_ := Admitted(s, e, now);
    if method_.None? then s
    else
      var ctx := Context(method_.value, e.channel, if e.oneShot then None else e.id, e.id, None, Running);
      s.(contexts := s.contexts + [ctx],
         inflight := if e.id.Some? then s.inflight[e.id.value := |s.contexts|] else s.inflight)
  }

  function Send(s: State, handle: nat, id: nat, data: Value): State {
    s.(updates := s.updates + [Write(handle, id, data)])
  }

  // A status report of a handler, which may hold on to its context after returning.
  function ReportStatus(s: State, handle: nat, call: StatusCall, now: int): State {
    if handle >= |s.contexts| then s
    else
      var ctx, payload := s.contexts[handle], StatusPayload(call, now);
      if ctx.messageId.None? || ctx.cancelled.Some? || payload.None? then s
      else Send(s, handle, ctx.messageId.value, payload.value)
  }

  function SetContext(s: State, handle: nat, ctx: Context): State
    requires handle < |s.contexts|
  {
    s.(contexts := s.contexts[handle := ctx])
  }

  // The handler came back: its command is no longer in flight.
  function HandlerReturned(s: State, handle: nat): State {
    if handle >= |s.contexts| || s.contexts[handle].phase != Running then s
    else
      var ctx := s.contexts[handle];
      var s' := SetContext(s, handle, ctx.(phase := Returned));
      if ctx.requestId.Some? then s'.(inflight := s.inflight - {ctx.requestId.value}) else s'
  }

  datatype HandlerResult = Answer(response: Value) | Fault(code: string, message: string)

  // Then its outcome is written, unless the command was cancelled meanwhile.
  function Respond(s: State, handle: nat, result: HandlerResult): State {
    if handle >= |s.contexts| || s.contexts[handle].phase != Returned then s
    else
      var ctx := s.contexts[handle];
      var s' := SetContext(s, handle, ctx.(phase := Finished));
      if ctx.messageId.None? || ctx.cancelled.Some? then s'
      else
        Send(s', handle, ctx.messageId.value,
          match result
          case Answer(response) => ResultPayload(response)
          case Fault(code, message) => ErrorPayload(code, message))
  }

  function ErrorText(v: Value): Text {
    if v.Str? then Verbatim(v.s) else Rendered(v)
  }

  // What an update means to the call waiting on it; None leaves it waiting.
  function Verdict(data: Value): Option<CallResult> {
    var status := Get(data, "status");
    if status.None? then None
    else
      var code, message := AsStr(Get(status.value, "code")).GetOr(""), Get(status.value, "message");
      if code in {"sent", "acknowledged", "deferred", "pending"} then None
      else if StatusIsCancelled(status.value) then Some(Cancelled(AsStr(Get(data, "method")).GetOr("unknown")))
      else if code == "success" then Some(Reply(Get(data, "response").GetOr(EMPTY)))
      else if code == "error" then
        match message
        case None => Some(Failure("UNKNOWN", NoText))
        case Some(Obj(m)) =>
          var text := Get(message.value, "message");
          Some(Failure(AsStr(Get(message.value, "code")).GetOr("UNKNOWN"),
                       if text.Some? then ErrorText(text.value) else NoText))
        case Some(other) => Some(Failure("UNKNOWN", ErrorText(other)))
      else None
  }

  predicate Withdraws(e: Event) {
    e.data.Some? && e.id.Some? && CommandIsCancelled(e.data.value)
  }

  // An update arrives: a cancellation of a running command is set aside for marking,
  // anything terminal resolves the call that waits for it.
  function HandleResponse(s: State, e: Event): State {
    if e.data.None? || e.id.None? then s
    else if Withdraws(e) && e.id.value in s.inflight then
      s.(marking := s.marking + [Marking(s.inflight[e.id.value], Get(e.data.value, "status").GetOr(Null))])
    else
      var verdict := Verdict(e.data.value);
      if verdict.None? || e.id.value !in s.pending then s
      else Resolve(s, e.id.value, verdict.value)
  }

  function Resolve(s: State, id: nat, result: CallResult): State {
    s.(pending := s.pending - {id}, calls := s.calls[id := Resolved(result)])
  }

  function CancelBody(status: Value): Value {
    var message := Get(status, "message");
    if message.Some? && message.value.Obj? then message.value else EMPTY
  }

  // `mark_cancelled`, on the context the k-th outstanding lookup found.
  function MarkCancelled(s: State, k: nat): State {
    if k >= |s.marking| then s
    else
      var m := s.marking[k];
      var s' := s.(marking := s.marking[..k] + s.marking[k + 1..]);
      if m.handle >= |s.contexts| then s'
      else SetContext(s', m.handle, s.contexts[m.handle].(cancelled := Some(CancelBody(m.status))))
  }

  function BeginCall(s: State, id: nat): State {
    s.(pending := s.pending + {id}, calls := s.calls[id := Waiting])
  }

  // The deadline only ends a call whose answer has not come.
  function CallTimedOut(s: State, id: nat): State {
    if id in s.calls && s.calls[id].Waiting? then Resolve(s, id, TimedOut) else s
  }

  class Manager {
    const appKey: Option<string>
    var handlers: set<(Option<string>, string)>
    var contexts: seq<Context>
    var inflight: map<nat, nat>
    var marking: seq<Marking>
    var updates: seq<Write>
    var pending: set<nat>
    var calls: map<nat, Call>

    ghost function Abstract(): State
      reads this
    {
      State(appKey, handlers, contexts, inflight, marking, updates, pending, calls)
    }

    constructor (appKey: Option<string>)
      ensures this.appKey == appKey && Abstract() == State(appKey, {}, [], map[], [], [], {}, map[])
    {
      this.appKey := appKey;
      handlers, contexts, inflight, marking := {}, [], map[], [];
      updates, pending, calls := [], {}, map[];
    }

    method RegisterHandler(channel: Option<string>, method_: string)
      modifies this`handlers
      ensures Abstract() == Registered(old(Abstract()), channel, method_)
    {
      handlers := handlers + {(channel, method_)};
    }

    method OnRequest(e: Event, now: int) returns (handle: Option<nat>)
      modifies this`contexts, this`inflight
      ensures Abstract() == HandleRequest(old(Abstract()), e, now)
      ensures handle.Some? ==> handle.value < |contexts| && contexts[handle.value].phase == Running
    {
      if e.data.None? || AsStr(Get(e.data.value, "type")) != Some("rpc") {
        return None;
      }
      var data := e.data.value;
      var method_ := AsStr(Get(data, "method"));
      if method_.None? {
        return None;
      }
      var target := AsStr(Get(data, "app_key"));
      if target.Some? && appKey != target {
        return None;
      }
      if Get(data, "request").None? || (e.id.Some? && IsExpired(e.createdMs, data, now)) || CommandIsCancelled(data) {
        return None;
      }
      if (Some(e.channel), method_.value) !in handlers && (None, method_.value) !in handlers {
        return None;
      }
      var ctx := Context(method_.value, e.channel, if e.oneShot then None else e.id, e.id, None, Running);
      handle := Some(|contexts|);
      if e.id.Some? {
        inflight := inflight[e.id.value := |contexts|];
      }
      contexts := contexts + [ctx];
    }

    // False: one-shots cannot report, and progress fields must be an object or null.
    method OnStatus(handle: nat, call: StatusCall, now: int) returns (ok: bool)
      requires handle < |contexts|
      modifies this`updates
      ensures Abstract() == ReportStatus(old(Abstract()), handle, call, now)
      ensures ok <==>
              contexts[handle].messageId.Some? && (contexts[handle].cancelled.Some? || StatusPayload(call, now).Some?)
    {
      var ctx := contexts[handle];
      if ctx.messageId.None? {
        return false;
      }
      if ctx.cancelled.Some? {
        return true;
      }
      var payload := StatusPayload(call, now);
      if payload.None? {
        return false;
      }
      updates := updates + [Write(handle, ctx.messageId.value, payload.value)];
      return true;
    }

    method OnReturn(handle: nat)
      requires handle < |contexts| && contexts[handle].phase == Running
      modifies this`contexts, this`inflight
      ensures Abstract() == HandlerReturned(old(Abstract()), handle)
    {
      var ctx := contexts[handle];
      contexts := contexts[handle := ctx.(phase := Returned)];
      if ctx.requestId.Some? {
        inflight := inflight - {ctx.requestId.value};
      }
    }

    method OnOutcome(handle: nat, result: HandlerResult)
      requires handle < |contexts| && contexts[handle].phase == Returned
      modifies this`contexts, this`updates
      ensures Abstract() == Respond(old(Abstract()), handle, result)
    {
      var ctx := contexts[handle];
      contexts := contexts[handle := ctx.(phase := Finished)];
      if ctx.messageId.Some? && ctx.cancelled.None? {
        match result
        case Answer(response) => updates := updates + [Write(handle, ctx.messageId.value, ResultPayload(response))];
        case Fault(code, message) =>
          updates := updates + [Write(handle, ctx.messageId.value, ErrorPayload(code, message))];
      }
    }

    method OnUpdate(e: Event)
      modifies this`marking, this`pending, this`calls
      ensures Abstract() == HandleResponse(old(Abstract()), e)
    {
      if e.data.None? || e.id.None? {
        return;
      }
      var status := Get(e.data.value, "status");
      if status.None? {
        return;
      }
      if StatusIsCancelled(status.value) && e.id.value in inflight {
        marking := marking + [Marking(inflight[e.id.value], status.value)];
        return;
      }
      var verdict := Verdict(e.data.value);
      if verdict.Some? && e.id.value in pending {
        pending := pending - {e.id.value};
        calls := calls[e.id.value := Resolved(verdict.value)];
      }
    }

    method OnMark(k: nat)
      requires k < |marking| && marking[k].handle < |contexts|
      modifies this`marking, this`contexts
      ensures Abstract() == MarkCancelled(old(Abstract()), k)
    {
      var m := marking[k];
      marking := marking[..k] + marking[k + 1..];
      contexts := contexts[m.handle := contexts[m.handle].(cancelled := Some(CancelBody(m.status)))];
    }

    method OnCall(id: nat)
      modifies this`pending, this`calls
      ensures Abstract() == BeginCall(old(Abstract()), id)
    {
      pending := pending + {id};
      calls := calls[id := Waiting];
    }

    method OnDeadline(id: nat)
      modifies this`pending, this`calls
      ensures Abstract() == CallTimedOut(old(Abstract()), id)
    {
      if id in calls && calls[id].Waiting? {
        pending := pending - {id};
        calls := calls[id := Resolved(TimedOut)];
      }
    }
  }
}
