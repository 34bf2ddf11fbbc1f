// How many pulses a counter counts, and which: the offline log thinned out to pulses more
// than 10 ms apart, the live ones after the grace period, and the window they are rated by.
module PulseLaws {
  import opened Wrappers
  import opened PulseCounter

  // ---- offline events ----

  // The times of the pulses among the events: edges of either kind and voltage events.
  function PulseTimes(events: seq<Event>): seq<real> {
    if events == [] then []
    else
      var e := events[0];
      (if e.name == "DI_R" || e.name == "DI_F" || e.name == "VI"
       then [if e.time == 0 then e.clock else e.time as real / 1000.0] else [])
      + PulseTimes(events[1..])
  }

  // Each time more than 10 ms past the last one kept is kept.
  function Thinned(last: Option<real>, times: seq<real>): seq<real>
    decreases |times|
  {
    if times == [] then []
    else if last.Some? && times[0] <= last.value + 0.01 then Thinned(last, times[1..])
    else [times[0]] + Thinned(Some(times[0]), times[1..])
  }

  function Newest(stamps: seq<real>): Option<real> {
    if stamps == [] then None else Some(stamps[|stamps| - 1])
  }

  /** A batch adds its thinned-out pulses, one count each, and nothing else. */
  lemma {:induction false} ReceiveExactly(s: State, events: seq<Event>)
    ensures Receive(s, events) == Extended(s, Thinned(Newest(s.stamps), PulseTimes(events)))
    decreases |events|
  {
    if events == [] {
      assert s.stamps + [] == s.stamps;
    } else {
      var e := events[0];
      ReceiveExactly(ReceiveOne(s, e), events[1..]);
      assert [e] + events[1..] == events;
      ThinnedFirst(Newest(s.stamps), e, events[1..]);
      if Counts(s, e) {
        ExtendedTwice(s, TimeOf(e), Thinned(Some(TimeOf(e)), PulseTimes(events[1..])));
      }
    }
  }

  function Extended(s: State, added: seq<real>): State {
    s.(count := s.count + |added|, stamps := s.stamps + added)
  }

  lemma ExtendedTwice(s: State, t: real, rest: seq<real>)
    ensures Extended(Extended(s, [t]), rest) == Extended(s, [t] + rest)
    ensures Newest(s.stamps + [t]) == Some(t)
  {
    assert s.stamps + [t] + rest == s.stamps + ([t] + rest);
  }

  lemma ThinnedFirst(last: Option<real>, e: Event, rest: seq<Event>)
    ensures Thinned(last, PulseTimes([e] + rest)) ==
            if !IsPulse(e) || (last.Some? && TimeOf(e) <= last.value + OLD) then Thinned(last, PulseTimes(rest))
            else [TimeOf(e)] + Thinned(Some(TimeOf(e)), PulseTimes(rest))
  {
    assert ([e] + rest)[1..] == rest;
    if IsPulse(e) {
      assert PulseTimes([e] + rest)[1..] == PulseTimes(rest);
    } else {
      assert PulseTimes([e] + rest) == PulseTimes(rest);
    }
  }

  predicate Spread(last: Option<real>, times: seq<real>)
    decreases |times|
  {
    times != [] ==> (last.Some? ==> times[0] > last.value + 0.01) && Spread(Some(times[0]), times[1..])
  }

  // A log whose pulses are far enough apart is counted in full, and one that is not loses some.
  lemma {:induction false} ThinnedIsAllExactly(last: Option<real>, times: seq<real>)
    ensures |Thinned(last, times)| <= |times|
    ensures Thinned(last, times) == times <==> Spread(last, times)
    decreases |times|
  {
    if times != [] {
      if last.Some? && times[0] <= last.value + 0.01 {
        ThinnedIsAllExactly(last, times[1..]);
      } else {
        ThinnedIsAllExactly(Some(times[0]), times[1..]);
      }
    }
  }

  /** Every pulse counted is told once, in order: with its time, its place in the count and
      its distance from the pulse before. */
  lemma {:induction false} UpdatesTellPulses(s: State, events: seq<Event>, i: nat)
    requires i < |UpdatesFor(s, events)|
    ensures var r, u := Receive(s, events), UpdatesFor(s, events)[i];
      var n := |s.stamps| + i;
      && |UpdatesFor(s, events)| == |r.stamps| - |s.stamps| == r.count - s.count
      && u.timestamp == Some(r.stamps[n]) && u.count == s.count + 1 + i
      && u.dt == (if n == 0 then 0.0 else r.stamps[n] - r.stamps[n - 1])
    decreases |events|
  {
    UpdatesAreCounted(s, events);
    var s' := ReceiveOne(s, events[0]);
    StampsOnlyGrow(s', events[1..]);
    if Counts(s, events[0]) {
      if i > 0 {
        UpdatesTellPulses(s', events[1..], i - 1);
      }
    } else {
      UpdatesTellPulses(s', events[1..], i);
    }
  }

  lemma {:induction false} UpdatesAreCounted(s: State, events: seq<Event>)
    ensures var r := Receive(s, events);
      r.count - s.count == |UpdatesFor(s, events)| && |r.stamps| - |s.stamps| == |UpdatesFor(s, events)|
    decreases |events|
  {
    if events != [] {
      UpdatesAreCounted(ReceiveOne(s, events[0]), events[1..]);
    }
  }

  lemma StampsOnlyGrow(s: State, events: seq<Event>)
    ensures s.stamps <= Receive(s, events).stamps
  {
    ReceiveExactly(s, events);
  }

  // Rising edges are told as rising and high, falling ones as falling and low, and voltage
  // events as low without an edge.
  lemma EdgesAreTold(s: State, e: Event)
    requires UpdatesFor(s, [e]) != []
    ensures var u := UpdatesFor(s, [e])[0];
      && (e.name == "DI_R" ==> u.value && u.rising == Some(true))
      && (e.name == "DI_F" ==> !u.value && u.rising == Some(false))
      && (e.name == "VI" ==> !u.value && u.rising == None)
      && e.name in {"DI_R", "DI_F", "VI"}
  {
    assert [e][1..] == [];
  }

  lemma {:induction false} UpdatesSplit(s: State, b: seq<Event>, c: seq<Event>)
    ensures UpdatesFor(s, b + c) == UpdatesFor(s, b) + UpdatesFor(Receive(s, b), c)
    decreases |b|
  {
    if b == [] {
      assert b + c == c;
    } else {
      assert (b + c)[1..] == b[1..] + c;
      UpdatesSplit(ReceiveOne(s, b[0]), b[1..], c);
    }
  }

  // ---- live pulses ----

  // The pulses 200 ms or more after the start.
  function AfterGrace(start: real, times: seq<real>): seq<real> {
    if times == [] then []
    else (if times[0] >= start + 0.2 then [times[0]] else []) + AfterGrace(start, times[1..])
  }

  function Lives(times: seq<real>): (ops: seq<Op>)
    ensures |ops| == |times|
  {
    if times == [] then [] else [Live(times[0])] + Lives(times[1..])
  }

  lemma {:induction false} LiveExactly(s: State, times: seq<real>)
    requires s.receivingPulses
    ensures var added := AfterGrace(s.startTime, times);
      Run(s, Lives(times)) == s.(count := s.count + |added|, stamps := s.stamps + added)
    decreases |times|
  {
    if times == [] {
      assert s.stamps + [] == s.stamps;
    } else {
      LiveExactly(Step(s, Live(times[0])), times[1..]);
      assert Lives(times)[1..] == Lives(times[1..]);
      var first := if times[0] >= s.startTime + 0.2 then [times[0]] else [];
      Regroup(s.stamps, first, AfterGrace(s.startTime, times[1..]));
    }
  }

  lemma Regroup(a: seq<real>, b: seq<real>, c: seq<real>)
    ensures (a + b) + c == a + (b + c) && a + [] == a
  {
  }

  /** Started as a live counter, it counts exactly the pulses after the grace period; in event
      mode it does not start at all. */
  lemma StartedCountsExactly(s: State, now: real, times: seq<real>)
    ensures var added := AfterGrace(now, times);
      Run(s, [Start(now)] + Lives(times)) ==
      if s.receivingEvents && s.receivingPulses then Run(s, Lives(times))
      else if s.receivingEvents then s
      else s.(receivingPulses := true, startTime := now, count := s.count + |added|, stamps := s.stamps + added)
  {
    assert ([Start(now)] + Lives(times))[1..] == Lives(times);
    var s' := Step(s, Start(now));
    if s'.receivingPulses {
      LiveExactly(s', times);
    } else {
      IdleLives(s', times);
    }
  }

  lemma {:induction false} IdleLives(s: State, times: seq<real>)
    requires !s.receivingPulses
    ensures Run(s, Lives(times)) == s
    decreases |times|
  {
    if times != [] {
      assert Lives(times)[1..] == Lives(times[1..]);
      IdleLives(s, times[1..]);
    }
  }

  // ---- counts and rates ----

  /** As long as nobody overwrites the count, it is the number of pulses recorded. */
  lemma {:induction false} CountIsStamps(s: State, ops: seq<Op>)
    requires s.count == |s.stamps| && forall op | op in ops :: !op.SetCount?
    ensures Run(s, ops).count == |Run(s, ops).stamps|
    decreases |ops|
  {
    if ops != [] {
      assert ops[0] in ops;
      if ops[0].Offline? {
        ReceiveExactly(s.(receivingEvents := true), ops[0].events);
      }
      CountIsStamps(Step(s, ops[0]), ops[1..]);
    }
  }

  // Known timestamps are added at the end, unless the counter is live.
  lemma ExistingExactly(s: State, timestamps: seq<real>)
    ensures var r := Step(s, Existing(timestamps));
      if s.receivingPulses then r == s
      else r.stamps == s.stamps + timestamps && r.count == |s.stamps| + |timestamps| && r.receivingEvents
           && !r.receivingPulses
  {
  }

  predicate Ordered(stamps: seq<real>) {
    forall i, j | 0 <= i < j < |stamps| :: stamps[i] <= stamps[j]
  }

  /** The window holds the newest pulses, exactly those less than its length before the last. */
  lemma {:induction false} WindowIsExact(s: State)
    requires Ordered(s.stamps)
    ensures s.stamps == [] ==> PulsesInWindow(s) == []
    ensures s.stamps != [] ==> exists k: nat | Splits(s.stamps, s.stamps[|s.stamps| - 1] - s.window, k) ::
      PulsesInWindow(s) == s.stamps[k..]
  {
    if s.stamps != [] {
      var k := WithinIsSuffix(s.stamps, s.stamps[|s.stamps| - 1] - s.window);
    }
  }

  lemma {:induction false} WithinIsSuffix(stamps: seq<real>, cutoff: real) returns (k: nat)
    requires Ordered(stamps)
    ensures Splits(stamps, cutoff, k) && Within(stamps, cutoff) == stamps[k..]
  {
    k := 0;
    if stamps != [] {
      var n := |stamps| - 1;
      k := WithinIsSuffix(stamps[..n], cutoff);
      k := SuffixGrows(stamps, cutoff, k);
    }
  }

  // The stamps from index `k` on are those past the cutoff.
  predicate Splits(stamps: seq<real>, cutoff: real, k: nat) {
    k <= |stamps| && forall i | 0 <= i < |stamps| :: i >= k <==> stamps[i] > cutoff
  }

  lemma SuffixGrows(stamps: seq<real>, cutoff: real, before: nat) returns (k: nat)
    requires Ordered(stamps) && stamps != []
    requires var init := stamps[..|stamps| - 1]; Splits(init, cutoff, before) && Within(init, cutoff) == init[before..]
    ensures Splits(stamps, cutoff, k) && Within(stamps, cutoff) == stamps[k..]
  {
    var n := |stamps| - 1;
    if stamps[n] > cutoff {
      k := before;
      SplitsAfter(stamps, cutoff, k);
      assert stamps[k..] == stamps[..n][k..] + [stamps[n]];
    } else {
      k := n + 1;
      NoneAfter(stamps, cutoff, before);
      assert Within(stamps, cutoff) == [];
    }
  }

  lemma SplitsAfter(stamps: seq<real>, cutoff: real, k: nat)
    requires stamps != [] && stamps[|stamps| - 1] > cutoff && Splits(stamps[..|stamps| - 1], cutoff, k)
    ensures Splits(stamps, cutoff, k)
  {
    forall i | 0 <= i < |stamps| - 1 ensures i >= k <==> stamps[i] > cutoff {
      assert stamps[..|stamps| - 1][i] == stamps[i];
    }
  }

  lemma NoneAfter(stamps: seq<real>, cutoff: real, before: nat)
    requires Ordered(stamps) && stamps != [] && stamps[|stamps| - 1] <= cutoff
    requires Splits(stamps[..|stamps| - 1], cutoff, before)
    ensures before == |stamps| - 1 && Splits(stamps, cutoff, |stamps|)
  {
    var init := stamps[..|stamps| - 1];
    if init != [] {
      var i := if before < |init| then before else 0;
      assert init[i] == stamps[i] <= stamps[|init|];
    }
  }

  // The rate is the window's pulses, scaled to a minute.
  lemma RateExactly(s: State)
    requires s.window != 0.0
    ensures PulsesPerMinute(s) * s.window == 60.0 * |PulsesInWindow(s)| as real
  {
    Divides(|PulsesInWindow(s)| as real * 60.0, s.window);
  }

  lemma Divides(a: real, w: real)
    requires w != 0.0
    ensures a / w * w == a
  {
  }
}
