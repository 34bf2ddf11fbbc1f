// The pulse counter of the platform client (docker/platform.rs): counting offline
// events and live pulses of one digital input. Times are exact seconds.
module PulseCounter {
  import opened Wrappers

  // One stored event. `clock` is what `unix_now` would read when the event is processed.
  datatype Event = Event(name: string, time: nat, clock: real)

  datatype State = State(
    count: nat, stamps: seq<real>, window: real, receivingPulses: bool, receivingEvents: bool, startTime: real)

  // What the pulse callback is told. `rising` is absent for voltage events.
  datatype Update = Update(value: bool, dt: real, timestamp: Option<real>, count: nat, rising: Option<bool>)

  const GRACE := 0.2
  const OLD := 0.01

  predicate IsPulse(e: Event) {
    e.name in {"DI_R", "DI_F", "VI"}
  }

  // An event without a time is stamped when it is processed.
  function TimeOf(e: Event): real {
    if e.time == 0 then e.clock else e.time as real / 1000.0
  }

  predicate IsOld(stamps: seq<real>, t: real) {
    stamps != [] && t <= stamps[|stamps| - 1] + OLD
  }

  predicate Counts(s: State, e: Event) {
    IsPulse(e) && !IsOld(s.stamps, TimeOf(e))
  }

  function ReceiveOne(s: State, e: Event): State {
    if Counts(s, e) then s.(count := s.count + 1, stamps := s.stamps + [TimeOf(e)]) else s
  }

  function UpdateFor(s: State, e: Event): Update {
    var dt := if s.stamps == [] then 0.0 else TimeOf(e) - s.stamps[|s.stamps| - 1];
    Update(e.name == "DI_R", dt, Some(TimeOf(e)), s.count + 1,
           if e.name == "DI_R" then Some(true) else if e.name == "DI_F" then Some(false) else None)
  }

  function Receive(s: State, events: seq<Event>): State
    decreases |events|
  {
    if events == [] then s else Receive(ReceiveOne(s, events[0]), events[1..])
  }

  function UpdatesFor(s: State, events: seq<Event>): seq<Update>
    decreases |events|
  {
    if events == [] then []
    else
      (if Counts(s, events[0]) then [UpdateFor(s, events[0])] else [])
      + UpdatesFor(ReceiveOne(s, events[0]), events[1..])
  }

  // The newest pulses, counted back from the last one.
  function Within(stamps: seq<real>, cutoff: real): seq<real> {
    if stamps == [] then []
    else Within(stamps[..|stamps| - 1], cutoff) + if stamps[|stamps| - 1] > cutoff then [stamps[|stamps| - 1]] else []
  }

  function PulsesInWindow(s: State): seq<real> {
    if s.stamps == [] then [] else Within(s.stamps, s.stamps[|s.stamps| - 1] - s.window)
  }

  function PulsesPerMinute(s: State): real
    requires s.window != 0.0
  {
    |PulsesInWindow(s)| as real * 60.0 / s.window
  }

  class Counter {
    var count: nat
    var stamps: seq<real>
    var window: real
    var receivingPulses: bool
    var receivingEvents: bool
    var startTime: real

    ghost function Abstract(): State
      reads this
    {
      State(count, stamps, window, receivingPulses, receivingEvents, startTime)
    }

    constructor (window: real, now: real)
      ensures Abstract() == State(0, [], window, false, false, now)
    {
      this.window, this.startTime := window, now;
      count, stamps, receivingPulses, receivingEvents := 0, [], false, false;
    }

    method StartListenerPulses(now: real)
      modifies this`receivingPulses, this`startTime
      ensures Abstract() == StartPulses(old(Abstract()), now)
    {
      if receivingEvents {
        return;
      }
      receivingPulses, startTime := true, now;
    }

    // The listener's callback; pulses within the grace period are ignored.
    method ReceivePulse(value: bool, dt: real, now: real, rising: Option<bool>) returns (update: Option<Update>)
      modifies this`count, this`stamps
      ensures Abstract() == LivePulse(old(Abstract()), now)
      ensures update == if now - startTime < GRACE then None else Some(Update(value, dt, None, old(count) + 1, rising))
    {
      if now - startTime < GRACE {
        return None;
      }
      count, stamps := count + 1, stamps + [now];
      return Some(Update(value, dt, None, count, rising));
    }

    method AddExistingEvents(timestamps: seq<real>)
      modifies this`receivingEvents, this`stamps, this`count
      ensures Abstract() == AddExisting(old(Abstract()), timestamps)
    {
      if receivingPulses {
        return;
      }
      receivingEvents, stamps := true, stamps + timestamps;
      count := |stamps|;
    }

    method ReceiveEvents(events: seq<Event>) returns (updates: seq<Update>)
      modifies this`receivingEvents, this`stamps, this`count
      ensures Abstract() == OfflineEvents(old(Abstract()), events)
      ensures updates == if old(receivingPulses) then []
              else UpdatesFor(old(Abstract()).(receivingEvents := true), events)
    {
      updates := [];
      if receivingPulses {
        return;
      }
      receivingEvents := true;
      ghost var s := Abstract();
      for i := 0 to |events|
        invariant Receive(Abstract(), events[i..]) == Receive(s, events)
        invariant updates + UpdatesFor(Abstract(), events[i..]) == UpdatesFor(s, events)
      {
        assert events[i..][0] == events[i] && events[i..][1..] == events[i + 1..];
        var update := ReceiveEvent(events[i]);
        if update.Some? {
          updates := updates + [update.value];
        }
      }
    }

    method ReceiveEvent(e: Event) returns (update: Option<Update>)
      modifies this`stamps, this`count
      ensures Abstract() == ReceiveOne(old(Abstract()), e)
      ensures update == if Counts(old(Abstract()), e) then Some(UpdateFor(old(Abstract()), e)) else None
    {
      if !IsPulse(e) {
        return None;
      }
      var t := TimeOf(e);
      var dt := 0.0;
      if stamps != [] {
        if t <= stamps[|stamps| - 1] + OLD {
          return None;
        }
        dt := t - stamps[|stamps| - 1];
      }
      var rising := if e.name == "DI_R" then Some(true) else if e.name == "DI_F" then Some(false) else None;
      count, stamps := count + 1, stamps + [t];
      return Some(Update(e.name == "DI_R", dt, Some(t), count, rising));
    }
  }

  // ---- the operations as functions ----

  function StartPulses(s: State, now: real): State {
    if s.receivingEvents then s else s.(receivingPulses := true, startTime := now)
  }

  function LivePulse(s: State, now: real): State {
    if now - s.startTime < GRACE then s else s.(count := s.count + 1, stamps := s.stamps + [now])
  }

  function AddExisting(s: State, timestamps: seq<real>): State {
    if s.receivingPulses then s
    else s.(receivingEvents := true, stamps := s.stamps + timestamps, count := |s.stamps + timestamps|)
  }

  function OfflineEvents(s: State, events: seq<Event>): State {
    if s.receivingPulses then s else Receive(s.(receivingEvents := true), events)
  }

  // ---- replaying a log ----

  lemma {:induction false} ReceiveSplits(s: State, b: seq<Event>, c: seq<Event>)
    ensures Receive(s, b + c) == Receive(Receive(s, b), c)
    decreases |b|
  {
    if b == [] {
      assert b + c == c;
    } else {
      assert (b + c)[1..] == b[1..] + c;
      ReceiveSplits(ReceiveOne(s, b[0]), b[1..], c);
    }
  }

  predicate AllOld(stamps: seq<real>, events: seq<Event>) {
    forall e | e in events && IsPulse(e) :: IsOld(stamps, TimeOf(e))
  }

  // The newest stamp only moves forward, so what was counted or dropped once is old.
  lemma {:induction false} ReceivedIsOld(s: State, b: seq<Event>)
    ensures AllOld(Receive(s, b).stamps, b)
    ensures forall t :: IsOld(s.stamps, t) ==> IsOld(Receive(s, b).stamps, t)
    decreases |b|
  {
    if b != [] {
      var s' := ReceiveOne(s, b[0]);
      ReceivedIsOld(s', b[1..]);
      assert IsPulse(b[0]) ==> IsOld(s'.stamps, TimeOf(b[0]));
      assert forall e | e in b :: e == b[0] || e in b[1..];
    }
  }

  // A batch leaves the counter alone exactly when every pulse in it is old.
  lemma {:induction false} OldBatchIsIgnored(s: State, b: seq<Event>)
    ensures Receive(s, b) == s <==> AllOld(s.stamps, b)
    ensures s.count <= Receive(s, b).count
    decreases |b|
  {
    if b != [] {
      var s' := ReceiveOne(s, b[0]);
      OldBatchIsIgnored(s', b[1..]);
      assert forall e | e in b :: e == b[0] || e in b[1..];
    }
  }

  // The same stored events read again later: only the clock readings may differ.
  predicate Reread(b: seq<Event>, b': seq<Event>) {
    |b| == |b'| && forall i | 0 <= i < |b| :: b'[i] == b[i].(clock := b'[i].clock)
  }

  predicate Timed(b: seq<Event>) {
    forall e | e in b && IsPulse(e) :: e.time != 0
  }

  /** Replaying a batch changes nothing exactly when no event without a time reads a clock
      more than 10 ms past the newest pulse. */
  lemma ReplayIsSafeExactly(s: State, b: seq<Event>, b': seq<Event>)
    requires Reread(b, b')
    ensures var once := Receive(s, b);
      Receive(once, b') == once <==> forall e | e in b' && IsPulse(e) && e.time == 0 :: IsOld(once.stamps, e.clock)
  {
    var once := Receive(s, b);
    ReceivedIsOld(s, b);
    OldBatchIsIgnored(once, b');
    forall i | 0 <= i < |b'| && IsPulse(b'[i]) && b'[i].time != 0 ensures IsOld(once.stamps, TimeOf(b'[i])) {
      assert b[i] in b;
    }
  }

  /** With event times, fetching the log from the start again counts nothing twice. */
  lemma ReplayedLogCountsOnce(s: State, b: seq<Event>, b': seq<Event>, c: seq<Event>)
    requires Reread(b, b') && Timed(b)
    ensures Receive(Receive(s, b), b' + c) == Receive(s, b + c)
  {
    ReplayIsSafeExactly(s, b, b') by {
      forall i | 0 <= i < |b'| && IsPulse(b'[i]) ensures b'[i].time != 0 {
        assert b[i] in b;
      }
    }
    ReceiveSplits(s, b, c);
    ReceiveSplits(Receive(s, b), b', c);
  }

  // ---- modes ----

  datatype Op =
    | Start(now: real)
    | Live(now: real)
    | Existing(timestamps: seq<real>)
    | Offline(events: seq<Event>)
    | BeginFetch // `update_events` claims event mode before it fetches
    | SetWindow(window: real)
    | SetCount(count: nat)

  function Step(s: State, op: Op): State {
    match op
    case Start(now) => StartPulses(s, now)
    case Live(now) => if s.receivingPulses then LivePulse(s, now) else s
    case Existing(timestamps) => AddExisting(s, timestamps)
    case Offline(events) => OfflineEvents(s, events)
    case BeginFetch => if s.receivingPulses then s else s.(receivingEvents := true)
    case SetWindow(window) => s.(window := window)
    case SetCount(count) => s.(count := count)
  }

  function Run(s: State, ops: seq<Op>): State
    decreases |ops|
  {
    if ops == [] then s else Run(Step(s, ops[0]), ops[1..])
  }

  lemma {:induction false} ReceiveKeepsModes(s: State, events: seq<Event>)
    ensures var r := Receive(s, events);
      r.receivingPulses == s.receivingPulses && r.receivingEvents == s.receivingEvents
    decreases |events|
  {
    if events != [] {
      ReceiveKeepsModes(ReceiveOne(s, events[0]), events[1..]);
    }
  }

  /** Live pulses and offline events are never mixed, in any run. */
  lemma {:induction false} ModesExclude(s: State, ops: seq<Op>)
    requires !(s.receivingPulses && s.receivingEvents)
    ensures var r := Run(s, ops); !(r.receivingPulses && r.receivingEvents)
    ensures s.receivingEvents ==> Run(s, ops).receivingEvents
    decreases |ops|
  {
    if ops != [] {
      if ops[0].Offline? {
        ReceiveKeepsModes(s.(receivingEvents := true), ops[0].events);
      }
      ModesExclude(Step(s, ops[0]), ops[1..]);
    }
  }

  // ---- rate ----

  predicate Spaced(stamps: seq<real>) {
    forall i | 0 < i < |stamps| :: stamps[i] > stamps[i - 1] + OLD
  }

  lemma {:induction false} ReceiveKeepsSpacing(s: State, events: seq<Event>)
    requires Spaced(s.stamps)
    ensures Spaced(Receive(s, events).stamps)
    decreases |events|
  {
    if events != [] {
      ReceiveKeepsSpacing(ReceiveOne(s, events[0]), events[1..]);
    }
  }

  lemma {:induction false} WithinIsSpaced(stamps: seq<real>, cutoff: real)
    requires Spaced(stamps)
    ensures var w := Within(stamps, cutoff);
      Spaced(w) && (w != [] ==> w[0] > cutoff && stamps != [] && w[|w| - 1] <= stamps[|stamps| - 1])
  {
    if stamps != [] {
      WithinIsSpaced(stamps[..|stamps| - 1], cutoff);
    }
  }

  lemma {:induction false} SpacedSpan(w: seq<real>)
    requires Spaced(w) && w != []
    ensures w[|w| - 1] >= w[0] + (|w| - 1) as real * OLD
  {
    if |w| > 1 {
      SpacedSpan(w[..|w| - 1]);
    }
  }

  lemma WindowIsBounded(s: State)
    requires Spaced(s.stamps) && s.window > 0.0
    ensures (|PulsesInWindow(s)| as real - 1.0) * OLD < s.window
  {
    var w := PulsesInWindow(s);
    if w != [] {
      WithinIsSpaced(s.stamps, s.stamps[|s.stamps| - 1] - s.window);
      SpacedSpan(w);
    }
  }

  /** However fast events come in, the reported rate is bounded by the 10 ms spacing. */
  lemma RateIsBounded(s: State, events: seq<Event>)
    requires Spaced(s.stamps) && s.window > 0.0
    ensures var r := Receive(s, events);
      && r.window == s.window && (|PulsesInWindow(r)| as real - 1.0) * OLD < s.window
      && PulsesPerMinute(r) < (100.0 * s.window + 1.0) * 60.0 / s.window
  {
    ReceiveKeepsSpacing(s, events);
    ReceiveKeepsWindow(s, events);
    var r := Receive(s, events);
    WindowIsBounded(r);
    RateOf(|PulsesInWindow(r)| as real, s.window);
  }

  lemma RateOf(n: real, w: real)
    requires (n - 1.0) * OLD < w && w > 0.0
    ensures n * 60.0 / w < (100.0 * w + 1.0) * 60.0 / w
  {
    Scales(n * 60.0, (100.0 * w + 1.0) * 60.0, w);
  }

  lemma Scales(a: real, b: real, w: real)
    requires a < b && w > 0.0
    ensures a / w < b / w
  {
    assert b / w - a / w == (b - a) / w;
  }

  lemma {:induction false} ReceiveKeepsWindow(s: State, events: seq<Event>)
    ensures Receive(s, events).window == s.window
    decreases |events|
  {
    if events != [] {
      ReceiveKeepsWindow(ReceiveOne(s, events[0]), events[1..]);
    }
  }
}
