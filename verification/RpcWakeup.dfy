// `RpcContext::wait_cancelled` against `mark_cancelled` (rpc.rs): waiters register
// before they test the flag, the canceller sets the flag before it notifies.
module RpcWakeup {

  // Where a waiter stands in its loop; `notified`: its registration has been fired.
  datatype Waiter = Idle | Registered(notified: bool) | Asleep(notified: bool) | Done

  // `toNotify` cancellers have set the flag and not notified yet; `notified`: one has.
  datatype State = State(flag: bool, toNotify: nat, notified: bool, waiters: seq<Waiter>)

  // Move(i) is the next thing waiter i does on its own; a sleeper waits to be notified.
  datatype Op = Move(i: nat) | SetFlag | Notify

  function Advance(w: Waiter, flag: bool): Waiter {
    match w
    case Idle => Registered(false)
    case Registered(n) => if flag then Done else Asleep(n)
    case Asleep(n) => if n then Idle else w
    case Done => w
  }

  // `notify_waiters` fires the registrations that exist, and only those.
  function Fire(w: Waiter): Waiter {
    match w
    case Registered(_) => Registered(true)
    case Asleep(_) => Asleep(true)
    case _ => w
  }

  function Step(s: State, op: Op): State {
    match op
    case Move(i) => if i < |s.waiters| then s.(waiters := s.waiters[i := Advance(s.waiters[i], s.flag)]) else s
    case SetFlag => s.(flag := true, toNotify := s.toNotify + 1)
    case Notify =>
      if s.toNotify == 0 then s
      else s.(toNotify := s.toNotify - 1, notified := true,
              waiters := seq(|s.waiters|, i requires 0 <= i < |s.waiters| => Fire(s.waiters[i])))
  }

  function Run(s: State, ops: seq<Op>): State
    decreases |ops|
  {
    if ops == [] then s else Run(Step(s, ops[0]), ops[1..])
  }

  predicate Invariant(s: State) {
    && (s.flag <==> s.notified || s.toNotify > 0)
    && (s.notified ==> forall w | w in s.waiters :: w != Asleep(false))
    && (Done in s.waiters ==> s.flag)
  }

  lemma StepKeepsInvariant(s: State, op: Op)
    requires Invariant(s)
    ensures Invariant(Step(s, op))
    ensures s.notified ==> Step(s, op).notified
  {
    var s' := Step(s, op);
    if s'.notified {
      forall i | 0 <= i < |s'.waiters| ensures s'.waiters[i] != Asleep(false) {
        assert s.notified ==> s.waiters[i] in s.waiters;
      }
    }
  }

  /** No lost wake-up: in every interleaving, nobody is asleep and unnotified once a
      notify has run, whoever sleeps on a set flag has a notify still to come, and nobody
      returns without a cancellation. */
  lemma {:induction false} NoLostWakeup(n: nat, ops: seq<Op>)
    ensures var s := Run(State(false, 0, false, seq(n, _ => Idle)), ops);
      && (s.notified ==> Asleep(false) !in s.waiters)
      && (s.flag && Asleep(false) in s.waiters ==> s.toNotify > 0)
      && (Done in s.waiters ==> SetFlag in ops)
  {
    RunKeepsInvariant(State(false, 0, false, seq(n, _ => Idle)), ops);
    FlagIsSet(State(false, 0, false, seq(n, _ => Idle)), ops);
  }

  lemma {:induction false} FlagIsSet(s: State, ops: seq<Op>)
    ensures Run(s, ops).flag ==> s.flag || SetFlag in ops
    decreases |ops|
  {
    if ops != [] {
      FlagIsSet(Step(s, ops[0]), ops[1..]);
    }
  }

  lemma {:induction false} RunKeepsInvariant(s: State, ops: seq<Op>)
    requires Invariant(s)
    ensures Invariant(Run(s, ops))
    decreases |ops|
  {
    if ops != [] {
      StepKeepsInvariant(s, ops[0]);
      RunKeepsInvariant(Step(s, ops[0]), ops[1..]);
    }
  }

  // How many moves of its own a waiter still needs once notified.
  function Distance(w: Waiter): nat {
    match w
    case Asleep(_) => 3
    case Idle => 2
    case Registered(_) => 1
    case Done => 0
  }

  function MovesOf(ops: seq<Op>, i: nat): nat {
    if ops == [] then 0 else (if ops[0] == Move(i) then 1 else 0) + MovesOf(ops[1..], i)
  }

  /** Once the flag is set every waiter not asleep unnotified, so every waiter once a notify
      has run, returns within three moves of its own, whatever else is scheduled between. */
  lemma {:induction false} WaitersReturn(s: State, ops: seq<Op>, i: nat)
    requires s.flag && i < |s.waiters| && s.waiters[i] != Asleep(false)
    requires Distance(s.waiters[i]) <= MovesOf(ops, i)
    ensures i < |Run(s, ops).waiters| && Run(s, ops).waiters[i] == Done
    decreases |ops|
  {
    if ops != [] {
      WaitersReturn(Step(s, ops[0]), ops[1..], i);
    }
  }
}
