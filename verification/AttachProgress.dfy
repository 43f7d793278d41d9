/**
 What an open and its forwarder get done (crates/server/daemon-core/src/connection.rs): every open
 is answered, and all output that has been broadcast can be brought to the wire.
 */
module AttachProgress {
  import opened Base
  import opened Tracker
  import opened Frames
  import opened Attach

  lemma RunCons<P>(lib: Library<P>, s: State, e: Event, events: seq<Event>)
    ensures Run(lib, s, [e] + events) == Run(lib, Next(lib, s, e), events)
    decreases |events|
  {
    var all := [e] + events;
    if events == [] {
      assert all[..0] == [] && Run(lib, s, []) == s;
    } else {
      RunCons(lib, s, e, events[..|events| - 1]);
      assert all[..|all| - 1] == [e] + events[..|events| - 1];
      hide Next;
    }
  }

  lemma ThreeSteps<P>(lib: Library<P>, s: State, a: Event, b: Event, c: Event)
    ensures Run(lib, s, [a, b, c]) == Next(lib, Next(lib, Next(lib, s, a), b), c)
  {
    hide Next;
    RunCons(lib, s, a, [b, c]);
    RunCons(lib, Next(lib, s, a), b, [c]);
    RunCons(lib, Next(lib, Next(lib, s, a), b), c, []);
    assert [a] + [b, c] == [a, b, c] && [b] + [c] == [b, c] && [c] + [] == [c];
  }

  // ----- Opens

  /** An open of a terminal that is there is acknowledged on a stream of its own, up to all that was pushed. */
  lemma OpenIsAcknowledged<P>(lib: Library<P>, s: State, t: TerminalId)
    requires s.opening.None? && t in s.terminals
    ensures var now := Run(lib, s, [Subscribe(t), TakeSnapshot, SendAck(true)]);
            && |now.wire| == |s.wire| + 1 && now.wire[..|s.wire|] == s.wire
            && now.wire[|s.wire|].Ack? && now.wire[|s.wire|].stream == s.nextStream && now.wire[|s.wire|].terminal == t
            && now.wire[|s.wire|].shot.end == |s.terminals[t].history|
            && now.opening.None? && now.streams.Keys == {s.nextStream} && now.streams[s.nextStream].terminal == t
            && now.terminals == s.terminals
  {
    ThreeSteps(lib, s, Subscribe(t), TakeSnapshot, SendAck(true));
    ShotEnds(lib, s.terminals[t]);
    SnapshotTaken(lib, s, t);
    var two := DoSnapshot(lib, DoSubscribe(s, t));
    Acknowledged(two);
    hide Shoot, Run, DoSubscribe, DoSnapshot, DoAck;
  }

  lemma SnapshotTaken<P>(lib: Library<P>, s: State, t: TerminalId)
    requires s.opening.None? && t in s.terminals
    ensures var two := DoSnapshot(lib, DoSubscribe(s, t));
            && two.opening == Some(Opening(s.nextStream, t, Subscription([], false), Some(Shoot(lib, s.terminals[t]))))
            && two.streams == map[] && two.wire == s.wire && two.terminals == s.terminals
  {
    hide Shoot;
  }

  lemma Acknowledged(s: State)
    requires s.opening.Some? && s.opening.value.shot.Some? && s.streams == map[]
    ensures var o, now := s.opening.value, DoAck(s, true);
            && now.wire == s.wire + [Ack(o.stream, o.terminal, o.shot.value)] && now.opening.None?
            && now.streams.Keys == {o.stream} && now.streams[o.stream].terminal == o.terminal
            && now.terminals == s.terminals
  {
  }

  lemma ShotEnds<P>(lib: Library<P>, term: Terminal)
    ensures Shoot(lib, term).end == |term.history|
  {
  }

  /** An open of a terminal that is not there, or no longer listed, is answered with an error and attaches nothing. */
  lemma OpenIsRefused<P>(lib: Library<P>, s: State, t: TerminalId)
    requires s.opening.None?
    ensures t !in s.terminals ==> Next(lib, s, Subscribe(t)) == s.(wire := s.wire + [UnknownTerminal])
    ensures t in s.terminals ==>
              var now := Run(lib, s, [Subscribe(t), TakeSnapshot, SendAck(false)]);
              now.wire == s.wire + [UnknownTerminal] && now.opening.None? && now.streams == map[]
  {
    hide Shoot, Run, DoSubscribe, DoSnapshot, DoAck;
    NotThere(s, t);
    if t in s.terminals {
      ThreeSteps(lib, s, Subscribe(t), TakeSnapshot, SendAck(false));
      SnapshotTaken(lib, s, t);
      NotListed(DoSnapshot(lib, DoSubscribe(s, t)));
    }
  }

  lemma NotListed(s: State)
    requires s.opening.Some? && s.opening.value.shot.Some?
    ensures DoAck(s, false) == s.(opening := None, wire := s.wire + [UnknownTerminal])
  {
  }

  lemma NotThere(s: State, t: TerminalId)
    requires s.opening.None?
    ensures t !in s.terminals ==> DoSubscribe(s, t) == s.(wire := s.wire + [UnknownTerminal])
  {
  }

  // ----- Output

  /** The work a queue of chunks still makes. */
  function Weight(queue: seq<Chunk>): nat {
    if queue == [] then 0
    else 1 + (if LiveFrames(queue[0]).Some? then 2 * |LiveFrames(queue[0]).value| else 0) + Weight(queue[1..])
  }

  ghost function Work(s: State, id: StreamId): nat
    requires id in s.streams
  {
    |s.outbound| + 2 * |s.streams[id].frames| + Weight(s.streams[id].sub.queue)
  }

  predicate IsForwarding(e: Event) {
    e.ForwardChunk? || e.ForwardFrame? || e.SendOutput?
  }

  /** The next thing forwarder and connection can do for a stream. */
  lemma ForwardOne<P>(lib: Library<P>, s: State, id: StreamId) returns (e: Event)
    requires Attach.Inv(lib, s) && s.opening.None? && id in s.streams && Work(s, id) > 0
    ensures IsForwarding(e)
    ensures var s' := Next(lib, s, e);
            && Attach.Inv(lib, s') && s'.opening.None? && id in s'.streams && Work(s', id) < Work(s, id)
            && InFlight(s', id) == InFlight(s, id)
            && s'.terminals == s.terminals && s'.origins == s.origins && s'.lagged == s.lagged && s'.opens == s.opens
  {
    hide Attach.Inv, InFlight, Work, DoSendOutput, DoForwardFrame, DoForwardChunk;
    hide DoPush, DoBroadcast, DoSubscribe, DoSnapshot, DoAck;
    e := NextForwarding(s, id);
    if s.outbound != [] {
      SendOne(lib, s, id);
    } else if s.streams[id].frames != [] {
      FrameOne(lib, s, id);
    } else {
      ChunkOne(lib, s, id);
    }
  }

  /** Frames of this or an earlier stream first, then the frames being sent, then the next chunk. */
  ghost function NextForwarding(s: State, id: StreamId): Event
    requires id in s.streams
  {
    if s.outbound != [] then SendOutput
    else if s.streams[id].frames != [] then ForwardFrame(id)
    else ForwardChunk(id)
  }

  lemma SendOne<P>(lib: Library<P>, s: State, id: StreamId)
    requires Attach.Inv(lib, s) && s.opening.None? && id in s.streams && s.outbound != []
    ensures Attach.Inv(lib, DoSendOutput(s)) && Forwarded(s, DoSendOutput(s), id)
    ensures InFlight(DoSendOutput(s), id) == InFlight(s, id)
  {
    hide Attach.Inv, IdsOk, InFlight, Work, DoSendOutput;
    IdsOfInv(lib, s);
    SendOutputIds(s);
    SendOutputStep(lib, s);
    SendOutputFlight(s, id);
    SendWork(s, id);
  }

  lemma FrameOne<P>(lib: Library<P>, s: State, id: StreamId)
    requires Attach.Inv(lib, s) && s.opening.None? && id in s.streams && s.outbound == [] && s.streams[id].frames != []
    ensures Attach.Inv(lib, DoForwardFrame(s, id)) && Forwarded(s, DoForwardFrame(s, id), id)
    ensures InFlight(DoForwardFrame(s, id), id) == InFlight(s, id)
  {
    hide Attach.Inv, IdsOk, InFlight, Work, DoForwardFrame;
    IdsOfInv(lib, s);
    ForwardFrameIds(s, id);
    ForwardFrameStep(lib, s, id);
    ForwardFrameFlight(s, id, id);
    FrameWork(s, id);
  }

  lemma ChunkOne<P>(lib: Library<P>, s: State, id: StreamId)
    requires Attach.Inv(lib, s) && s.opening.None? && id in s.streams && s.outbound == [] && s.streams[id].frames == []
    requires Work(s, id) > 0
    ensures Attach.Inv(lib, DoForwardChunk(s, id)) && Forwarded(s, DoForwardChunk(s, id), id)
    ensures InFlight(DoForwardChunk(s, id), id) == InFlight(s, id)
  {
    hide Attach.Inv, IdsOk, InFlight, Work, DoForwardChunk;
    IdsOfInv(lib, s);
    ForwardChunkIds(s, id);
    ForwardChunkStep(lib, s, id);
    ForwardChunkFlight(s, id, id);
    ChunkWork(s, id);
  }

  lemma IdsOfInv<P>(lib: Library<P>, s: State)
    requires Attach.Inv(lib, s)
    ensures IdsOk(s)
  {
    hide IdsOk, Good;
  }

  /** Forwarding changes the streams and the wire only. */
  ghost predicate Forwarded(s: State, s': State, id: StreamId)
    requires id in s.streams
  {
    && id in s'.streams && Work(s', id) < Work(s, id)
    && s'.terminals == s.terminals && s'.origins == s.origins && s'.lagged == s.lagged && s'.opens == s.opens
    && s'.opening == s.opening
  }

  lemma SendWork(s: State, id: StreamId)
    requires s.opening.None? && id in s.streams && s.outbound != []
    ensures Forwarded(s, DoSendOutput(s), id)
  {
    hide Weight;
  }

  lemma FrameWork(s: State, id: StreamId)
    requires id in s.streams && s.outbound == [] && s.streams[id].frames != []
    ensures Forwarded(s, DoForwardFrame(s, id), id)
  {
    hide Weight;
  }

  lemma ChunkWork(s: State, id: StreamId)
    requires IdsOk(s) && id in s.streams && s.outbound == [] && s.streams[id].frames == [] && Work(s, id) > 0
    ensures Forwarded(s, DoForwardChunk(s, id), id)
  {
    var queue := s.streams[id].sub.queue;
    assert queue != [];
    assert SubOk(s.streams[id].sub, id in s.lagged);
    assert LiveFrames(queue[0]).Some?;
    hide LiveFrames, IdsOk;
  }

  /**
   From any state a run can reach, with a stream attached that has not lagged, forwarding alone
   brings to the wire all its terminal has broadcast since the subscription, without a gap.
   */
  lemma {:induction false} OutputArrives<P>(lib: Library<P>, s: State, id: StreamId) returns (events: seq<Event>)
    requires Attach.Inv(lib, s) && s.opening.None? && id in s.streams && id in s.origins && id !in s.lagged
    requires s.origins[id].terminal in s.terminals
    ensures forall e :: e in events ==> IsForwarding(e)
    ensures var now := Run(lib, s, events);
            var base := s.origins[id].base;
            && now.terminals == s.terminals && OnWire(now.wire, id) == InFlight(s, id)
            && Gapless(OnWire(now.wire, id), base)
            && End(OnWire(now.wire, id), base) == s.terminals[s.origins[id].terminal].Sent()
    decreases Work(s, id)
  {
    if Work(s, id) == 0 {
      events := [];
      NothingLeft(s, id);
      AllSent(lib, s, id);
      assert Run(lib, s, []) == s;
      hide OnWire, InFlight, Attach.Inv;
    } else {
      hide Attach.Inv, Work, InFlight, OnWire, Run, IsForwarding, Next;
      var e := ForwardOne(lib, s, id);
      var more := OutputArrives(lib, Next(lib, s, e), id);
      events := [e] + more;
      RunCons(lib, s, e, more);
    }
  }

  lemma NothingLeft(s: State, id: StreamId)
    requires s.opening.None? && id in s.streams && Work(s, id) == 0
    ensures OnWire(s.wire, id) == InFlight(s, id)
  {
    assert s.outbound == [] && s.streams[id].frames == [] && s.streams[id].sub.queue == [];
    assert Outgoing([], id) == [] && Queued([]) == [];
  }

  lemma AllSent<P>(lib: Library<P>, s: State, id: StreamId)
    requires Attach.Inv(lib, s) && id in s.streams && id in s.origins && id !in s.lagged
    requires s.origins[id].terminal in s.terminals
    ensures Gapless(InFlight(s, id), s.origins[id].base)
    ensures End(InFlight(s, id), s.origins[id].base) == s.terminals[s.origins[id].terminal].Sent()
  {
    assert Good(lib, s, id);
    hide InFlight, Slices, Gapless, ShotOk, End;
  }

  /** So in every run the output of an open terminal reaches the wire. */
  lemma EveryRunCanDeliver<P>(lib: Library<P>, s: State, events: seq<Event>, id: StreamId) returns (more: seq<Event>)
    requires Attach.Start(s) && Run(lib, s, events).opens < U32_MAX
    requires var now := Run(lib, s, events); now.opening.None? && id in now.streams && id !in now.lagged
    ensures forall e :: e in more ==> IsForwarding(e)
    ensures var now := Run(lib, s, events);
            && id in now.origins && now.origins[id].terminal in now.terminals
            && var later := Run(lib, now, more);
            later.terminals == now.terminals
            && End(OnWire(later.wire, id), now.origins[id].base) == now.terminals[now.origins[id].terminal].Sent()
  {
    RunKeepsInv(lib, s, events);
    var now := Run(lib, s, events);
    hide Run;
    OriginsKnown(now);
    more := OutputArrives(lib, now, id);
  }
}
