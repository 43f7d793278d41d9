/** Server and pair tickets (crates/relay/relay-core/src/caps.rs): a bounded counter shared by any number of threads. */
module TicketCounter {
  import opened Base

  datatype Thread = Idle | Adding(current: nat) | Dropping(current: nat)

  /** `live` records the tickets handed out and not yet given back. */
  datatype State = State(
    counter: nat,
    threads: seq<Thread>,
    live: nat)

  datatype Event = BeginAdd(thread: nat) | BeginDrop(thread: nat) | Step(thread: nat)

  function Droppers(threads: seq<Thread>): nat {
    if threads == [] then 0
    else Droppers(threads[..|threads| - 1]) + (if threads[|threads| - 1].Dropping? then 1 else 0)
  }

  /** `live` counts the tickets whose increment has happened and whose decrement has not. */
  ghost function Next(limit: nat, s: State, e: Event): State {
    if e.thread >= |s.threads| then s
    else
      var t := e.thread;
      match e
      case BeginAdd(_) => if s.threads[t].Idle? then s.(threads := s.threads[t := Adding(s.counter)]) else s
      case BeginDrop(_) =>
        if s.threads[t].Idle? && Droppers(s.threads) < s.live
        then s.(threads := s.threads[t := Dropping(s.counter)]) else s
      case Step(_) =>
        match s.threads[t]
        case Idle => s
        case Adding(current) =>
          if current >= limit then s.(threads := s.threads[t := Idle])
          else if s.counter == current then
            s.(threads := s.threads[t := Idle], counter := current + 1, live := s.live + 1)
          else s.(threads := s.threads[t := Adding(s.counter)])
        case Dropping(current) =>
          if s.counter == current then
            if current == 0 then s.(threads := s.threads[t := Idle])
            else s.(threads := s.threads[t := Idle], counter := current - 1, live := SatSub(s.live, 1))
          else s.(threads := s.threads[t := Dropping(s.counter)])
  }

  ghost function Run(limit: nat, s: State, events: seq<Event>): State {
    if events == [] then s else Next(limit, Run(limit, s, events[..|events| - 1]), events[|events| - 1])
  }

  ghost predicate Start(s: State) {
    s.counter == 0 && s.live == 0 && forall i :: 0 <= i < |s.threads| ==> s.threads[i].Idle?
  }

  lemma {:induction false} DroppersUpdate(threads: seq<Thread>, t: nat, th: Thread)
    requires t < |threads|
    ensures Droppers(threads[t := th])
            == Droppers(threads) - (if threads[t].Dropping? then 1 else 0) + (if th.Dropping? then 1 else 0)
    ensures threads[t].Dropping? ==> Droppers(threads) > 0
  {
    var n := |threads| - 1;
    if t == n {
      assert threads[t := th][..n] == threads[..n];
    } else {
      DroppersUpdate(threads[..n], t, th);
      assert threads[t := th][..n] == threads[..n][t := th];
    }
  }

  lemma {:induction false} NoDroppers(threads: seq<Thread>)
    requires forall i :: 0 <= i < |threads| ==> threads[i].Idle?
    ensures Droppers(threads) == 0
  {
    if threads != [] {
      NoDroppers(threads[..|threads| - 1]);
    }
  }

  ghost predicate Inv(limit: nat, s: State) {
    && s.counter == s.live
    && s.counter <= limit
    && Droppers(s.threads) <= s.live
    && (forall i :: 0 <= i < |s.threads| && s.threads[i].Adding? ==> s.threads[i].current <= limit)
  }

  lemma StepKeepsInv(limit: nat, s: State, e: Event)
    requires Inv(limit, s)
    ensures Inv(limit, Next(limit, s, e))
  {
    var s' := Next(limit, s, e);
    if e.thread < |s.threads| {
      DroppersUpdate(s.threads, e.thread, s'.threads[e.thread]);
      assert s.threads[e.thread := s'.threads[e.thread]] == s'.threads;
    }
  }

  /**
   In every run the counter is the number of live tickets and never above the limit; and a
   thread that is about to be refused read the counter when exactly `limit` tickets were live.
   */
  lemma {:induction false} CounterIsLiveTickets(limit: nat, s: State, events: seq<Event>)
    requires Start(s)
    ensures var now := Run(limit, s, events);
            && Inv(limit, now)
            && now.counter == now.live <= limit
            && (forall i :: 0 <= i < |now.threads| && now.threads[i].Adding? && now.threads[i].current >= limit
                            ==> now.threads[i].current == limit)
  {
    if events == [] {
      NoDroppers(s.threads);
    } else {
      CounterIsLiveTickets(limit, s, events[..|events| - 1]);
      StepKeepsInv(limit, Run(limit, s, events[..|events| - 1]), events[|events| - 1]);
    }
  }

  /** Alone, a ticket is handed out if and only if one is left, and giving one back frees it. */
  lemma TicketsComeAndGo(limit: nat, s: State, t: nat)
    requires Inv(limit, s) && t < |s.threads| && s.threads[t].Idle?
    ensures var now := Next(limit, Next(limit, s, BeginAdd(t)), Step(t));
            now == if s.counter < limit then s.(counter := s.counter + 1, live := s.live + 1) else s
    ensures Droppers(s.threads) < s.live ==>
              var now := Next(limit, Next(limit, s, BeginDrop(t)), Step(t));
              now == s.(counter := s.counter - 1, live := s.live - 1)
  {
    hide Droppers;
    assert s.threads[t := Adding(s.counter)][t := Idle] == s.threads;
    assert s.threads[t := Dropping(s.counter)][t := Idle] == s.threads;
  }
}
