/**
 The per-pair token bucket and queue limit of the relay (crates/relay/relay-core/src/caps.rs),
 under any interleaving of the loads and compare-and-swaps of any number of threads.
 */
module TokenBucket {
  import opened Base

  /** Where a thread is inside one of the operations. */
  datatype Thread =
    | Idle
    | Consuming(bytes: nat, current: nat)
    | Remaindering(current: nat)
    | Loading(tick: nat)
    | Refilling(tick: nat, current: nat)
    | Enqueuing(bytes: nat, current: nat)
    | Dequeuing(bytes: nat, current: nat)

  datatype Limits = Limits(maxBytesPerSec: nat, maxQueuedBytes: nat)

  /** `consumed` and `ticks` only record what has happened. */
  datatype State = State(
    bucket: nat,
    remainder: nat,
    queued: nat,
    threads: seq<Thread>,
    consumed: nat,
    ticks: nat)

  datatype Operation = Consume(bytes: nat) | Refill | Enqueue(bytes: nat) | Dequeue(bytes: nat)

  /** A thread begins an operation with a load, or takes the next atomic step of the one it is in. */
  datatype Event = Begin(thread: nat, op: Operation) | Step(thread: nat)

  function SatAdd64(a: nat, b: nat): nat {
    Min(a + b, U64_MAX)
  }

  ghost function Set(s: State, t: nat, th: Thread): State
    requires t < |s.threads|
  {
    s.(threads := s.threads[t := th])
  }

  ghost function StartOp(s: State, t: nat, op: Operation): State {
    if t >= |s.threads| || !s.threads[t].Idle? then s
    else
      match op
      case Consume(bytes) => Set(s, t, Consuming(bytes, s.bucket))
      case Refill => Set(s, t, Remaindering(s.remainder))
      case Enqueue(bytes) => Set(s, t, Enqueuing(bytes, s.queued))
      case Dequeue(bytes) => Set(s, t, Dequeuing(bytes, s.queued))
  }

  /** One turn of a retry loop: give up, or compare-and-swap and either finish or retry. */
  ghost function Turn(l: Limits, s: State, t: nat): State
    requires t < |s.threads|
  {
    match s.threads[t]
    case Idle => s
    case Consuming(bytes, current) =>
      if current < bytes then Set(s, t, Idle)
      else if s.bucket == current then
        Set(s, t, Idle).(bucket := current - bytes, consumed := s.consumed + bytes)
      else Set(s, t, Consuming(bytes, s.bucket))
    case Remaindering(current) =>
      var total := SatAdd64(current, l.maxBytesPerSec);
      if s.remainder == current then
        Set(s, t, if total / 10 == 0 then Idle else Loading(total / 10)).(remainder := total % 10, ticks := s.ticks + 1)
      else Set(s, t, Remaindering(s.remainder))
    case Loading(tick) => Set(s, t, Refilling(tick, s.bucket))
    case Refilling(tick, current) =>
      var next := Min(SatAdd64(current, tick), l.maxBytesPerSec);
      if next == current then Set(s, t, Idle)
      else if s.bucket == current then Set(s, t, Idle).(bucket := next)
      else Set(s, t, Refilling(tick, s.bucket))
    case Enqueuing(bytes, current) =>
      if current + bytes > U64_MAX || current + bytes > l.maxQueuedBytes then Set(s, t, Idle)
      else if s.queued == current then Set(s, t, Idle).(queued := current + bytes)
      else Set(s, t, Enqueuing(bytes, s.queued))
    case Dequeuing(bytes, current) =>
      if s.queued == current then Set(s, t, Idle).(queued := SatSub(current, bytes))
      else Set(s, t, Dequeuing(bytes, s.queued))
  }

  ghost function Next(l: Limits, s: State, e: Event): State {
    match e
    case Begin(t, op) => StartOp(s, t, op)
    case Step(t) => if t < |s.threads| then Turn(l, s, t) else s
  }

  ghost function Run(l: Limits, s: State, events: seq<Event>): State {
    if events == [] then s else Next(l, Run(l, s, events[..|events| - 1]), events[|events| - 1])
  }

  /** A new ticket: a full bucket. */
  ghost predicate Start(l: Limits, s: State) {
    && s.bucket == l.maxBytesPerSec && s.remainder == 0 && s.queued == 0
    && (forall i :: 0 <= i < |s.threads| ==> s.threads[i].Idle?)
    && s.consumed == 0 && s.ticks == 0
  }

  /** Bytes a thread has taken out of the remainder and not yet put into the bucket. */
  function Carrying(t: Thread): nat {
    if t.Loading? || t.Refilling? then t.tick else 0
  }

  function InTransit(threads: seq<Thread>): nat {
    if threads == [] then 0 else InTransit(threads[..|threads| - 1]) + Carrying(threads[|threads| - 1])
  }

  lemma {:induction false} InTransitUpdate(threads: seq<Thread>, t: nat, th: Thread)
    requires t < |threads|
    ensures InTransit(threads[t := th]) == InTransit(threads) - Carrying(threads[t]) + Carrying(th)
    ensures InTransit(threads) >= Carrying(threads[t])
  {
    var n := |threads| - 1;
    if t == n {
      assert threads[t := th][..n] == threads[..n];
    } else {
      InTransitUpdate(threads[..n], t, th);
      assert threads[t := th][..n] == threads[..n][t := th];
    }
  }

  lemma {:induction false} InTransitIdle(threads: seq<Thread>)
    requires forall i :: 0 <= i < |threads| ==> threads[i].Idle?
    ensures InTransit(threads) == 0
  {
    if threads != [] {
      InTransitIdle(threads[..|threads| - 1]);
    }
  }

  /** All the tenths of bytes a ticket has ever been given. */
  function Budget(l: Limits, ticks: nat): nat {
    10 * l.maxBytesPerSec + ticks * l.maxBytesPerSec
  }

  lemma BudgetOfTick(l: Limits, ticks: nat)
    ensures Budget(l, ticks + 1) == Budget(l, ticks) + l.maxBytesPerSec
  {
  }

  /**
   Tokens are only ever created by ticks: what is in the bucket, on its way to it or spent,
   counted in tenths with the carry, never exceeds the first fill plus one tenth of a second's
   worth per tick.
   */
  ghost predicate Inv(l: Limits, s: State) {
    && s.bucket <= l.maxBytesPerSec
    && s.remainder < 10
    && s.queued <= l.maxQueuedBytes
    && 10 * (s.bucket + s.consumed + InTransit(s.threads)) + s.remainder <= Budget(l, s.ticks)
    && (forall i :: 0 <= i < |s.threads| ==> s.threads[i].Dequeuing? ==> s.threads[i].current <= l.maxQueuedBytes)
  }

  lemma StepKeepsInv(l: Limits, s: State, e: Event)
    requires Inv(l, s)
    ensures Inv(l, Next(l, s, e))
  {
    match e
    case Begin(t, op) => BeginKeepsInv(l, s, t, op);
    case Step(t) =>
      if t < |s.threads| {
        TurnKeepsInv(l, s, t);
      }
  }

  lemma BeginKeepsInv(l: Limits, s: State, t: nat, op: Operation)
    requires Inv(l, s)
    ensures Inv(l, StartOp(s, t, op))
  {
    var s' := StartOp(s, t, op);
    if t < |s.threads| {
      InTransitUpdate(s.threads, t, s'.threads[t]);
      assert s.threads[t := s'.threads[t]] == s'.threads;
      hide Budget, InTransit;
    }
  }

  lemma TurnKeepsInv(l: Limits, s: State, t: nat)
    requires Inv(l, s) && t < |s.threads|
    ensures Inv(l, Turn(l, s, t))
  {
    var s' := Turn(l, s, t);
    BudgetOfTick(l, s.ticks);
    InTransitUpdate(s.threads, t, s'.threads[t]);
    hide Budget, InTransit;
    assert s.threads[t := s'.threads[t]] == s'.threads;
    match s.threads[t]
    case Idle =>
    case Consuming(_, _) =>
    case Remaindering(_) =>
    case Loading(_) =>
    case Refilling(_, _) =>
    case Enqueuing(_, _) =>
    case Dequeuing(_, _) =>
  }

  lemma {:induction false} RunKeepsInv(l: Limits, s: State, events: seq<Event>)
    requires Start(l, s)
    ensures Inv(l, Run(l, s, events))
  {
    if events == [] {
      InTransitIdle(s.threads);
    } else {
      RunKeepsInv(l, s, events[..|events| - 1]);
      StepKeepsInv(l, Run(l, s, events[..|events| - 1]), events[|events| - 1]);
    }
  }

  /**
   Whatever the interleaving: after n refill ticks a pair has been let through at most
   max + floor(n * max / 10) bytes, the bucket never holds more than a second's worth, the
   carry stays below ten tenths, and the queue never exceeds its limit.
   */
  lemma RateIsBounded(l: Limits, s: State, events: seq<Event>)
    requires Start(l, s)
    ensures var now := Run(l, s, events);
            && now.consumed + now.bucket <= l.maxBytesPerSec + now.ticks * l.maxBytesPerSec / 10
            && now.bucket <= l.maxBytesPerSec
            && now.remainder < 10
            && now.queued <= l.maxQueuedBytes
  {
    RunKeepsInv(l, s, events);
  }

  /** The bound is met: an idle ticket grants its whole first second at once. */
  lemma FirstSecondIsGranted(l: Limits, s: State)
    requires Start(l, s) && s.threads != []
    ensures Run(l, s, [Begin(0, Consume(l.maxBytesPerSec)), Step(0)]).consumed == l.maxBytesPerSec
  {
    var first := Begin(0, Consume(l.maxBytesPerSec));
    var events := [first, Step(0)];
    assert events[..1] == [first] && [first][..0] == [];
    assert Run(l, s, []) == s;
    assert Run(l, s, [first]) == StartOp(s, 0, first.op);
  }

  // ----- What each operation does when no other thread interferes

  ghost function Steps(l: Limits, s: State, t: nat, n: nat): State {
    if n == 0 then s else Next(l, Steps(l, s, t, n - 1), Step(t))
  }

  /** The state after a thread runs one operation to its end alone. */
  ghost function Alone(l: Limits, s: State, t: nat, op: Operation): State {
    Steps(l, Next(l, s, Begin(t, op)), t, 3)
  }

  lemma ThreeTurns(l: Limits, s: State, t: nat)
    ensures Steps(l, s, t, 3) == Next(l, Next(l, Next(l, s, Step(t)), Step(t)), Step(t))
  {
    hide Next;
    assert Steps(l, s, t, 1) == Next(l, s, Step(t));
    assert Steps(l, s, t, 2) == Next(l, Next(l, s, Step(t)), Step(t));
  }

  /** Consuming takes exactly the bytes when the bucket holds them, and nothing otherwise. */
  lemma ConsumeTakesItsBytes(l: Limits, s: State, t: nat, bytes: nat)
    requires t < |s.threads| && s.threads[t].Idle?
    ensures var now := Alone(l, s, t, Consume(bytes));
            now == if bytes <= s.bucket then s.(bucket := s.bucket - bytes, consumed := s.consumed + bytes) else s
  {
    ThreeTurns(l, Next(l, s, Begin(t, Consume(bytes))), t);
    hide Steps;
    assert s.threads[t := Consuming(bytes, s.bucket)][t := Idle] == s.threads;
  }

  /** Queueing counts exactly the bytes that fit, and taking off the queue lowers it by them. */
  lemma QueueGoesUpAndDown(l: Limits, s: State, t: nat, bytes: nat)
    requires t < |s.threads| && s.threads[t].Idle?
    ensures Alone(l, s, t, Enqueue(bytes))
            == if s.queued + bytes <= Min(l.maxQueuedBytes, U64_MAX) then s.(queued := s.queued + bytes) else s
    ensures Alone(l, s, t, Dequeue(bytes)) == s.(queued := if bytes <= s.queued then s.queued - bytes else 0)
  {
    ThreeTurns(l, Next(l, s, Begin(t, Enqueue(bytes))), t);
    ThreeTurns(l, Next(l, s, Begin(t, Dequeue(bytes))), t);
    hide Steps;
    assert s.threads[t := Enqueuing(bytes, s.queued)][t := Idle] == s.threads;
    assert s.threads[t := Dequeuing(bytes, s.queued)][t := Idle] == s.threads;
  }

  /** A tick adds a tenth of a second's worth, with the tenths left over carried on, up to a full bucket. */
  lemma RefillAddsATenth(l: Limits, s: State, t: nat)
    requires t < |s.threads| && s.threads[t].Idle? && Inv(l, s)
    requires s.remainder + l.maxBytesPerSec <= U64_MAX
    ensures var now := Alone(l, s, t, Refill);
            var tenths := s.remainder + l.maxBytesPerSec;
            && now.bucket == Min(s.bucket + tenths / 10, l.maxBytesPerSec)
            && now.remainder == tenths % 10 && now.ticks == s.ticks + 1
            && now.queued == s.queued && now.consumed == s.consumed && now.threads == s.threads
  {
    var tenths := s.remainder + l.maxBytesPerSec;
    assert tenths / 10 * 10 + tenths % 10 == tenths;
    var begun := Next(l, s, Begin(t, Refill));
    ThreeTurns(l, begun, t);
    hide Steps, InTransit, Budget;
    assert begun == Set(s, t, Remaindering(s.remainder));
    var one := Next(l, begun, Step(t));
    if tenths / 10 == 0 {
      assert one.threads == s.threads;
    } else {
      assert one == Set(s, t, Loading(tenths / 10)).(remainder := tenths % 10, ticks := s.ticks + 1);
      var two := Next(l, one, Step(t));
      assert two == Set(s, t, Refilling(tenths / 10, s.bucket)).(remainder := tenths % 10, ticks := s.ticks + 1);
      var three := Next(l, two, Step(t));
      assert three.threads == s.threads;
    }
  }
}
