/**
 Opening a terminal while it prints: the reader threads, the subscriptions, the connection
 task and its forwarders as steps of one machine (crates/server/pty/src/terminal.rs,
 `spawn_reader`; crates/server/daemon-core/src/connection.rs). Every interleaving of the steps
 is a sequence of events; the machine is a function of it.
 */
module Attach {
  import opened Base
  import opened Tracker
  import opened Frames
  import Ring
  import SnapshotPrefix

  const SUBSCRIBER_CAP: nat := 1024
  const OUTPUT_QUEUE_CAP: nat := 64

  type TerminalId = nat
  type StreamId = nat

  /** A terminal: everything pushed so far, and the pushed chunk that is not yet broadcast. */
  datatype Terminal = Terminal(history: seq<Byte>, unsent: seq<Byte>, interval: nat)
  {
    /** How much of the history has been broadcast. */
    function Sent(): int {
      |history| - |unsent|
    }
  }

  /** A broadcast receiver. The channel forgets its oldest chunk when a receiver is full. */
  datatype Subscription = Subscription(queue: seq<Chunk>, lagged: bool)
  {
    function Receive(c: Chunk): Subscription {
      if |queue| == SUBSCRIBER_CAP then Subscription(queue[1..] + [c], true)
      else Subscription(queue + [c], lagged)
    }
  }

  /** An attached stream with its forwarder: what it is subscribed to and what it is sending. */
  datatype Attached = Attached(terminal: TerminalId, sub: Subscription, frames: seq<Frame>, ended: bool)

  datatype Shot = Shot(start: nat, end: nat, render: seq<Byte>)

  /** An open request between its subscription and its acknowledgement. */
  datatype Opening = Opening(stream: StreamId, terminal: TerminalId, sub: Subscription, shot: Option<Shot>)

  datatype Outbound = Outbound(stream: StreamId, terminal: TerminalId, frame: Frame)

  datatype Message =
    | Ack(stream: StreamId, terminal: TerminalId, shot: Shot)
    | UnknownTerminal
    | Data(stream: StreamId, frame: Frame)

  /** A subscription made: whose output, and how much of it had been broadcast by then. */
  datatype Origin = Origin(terminal: TerminalId, base: nat)

  /** `origins`, `acks`, `lagged` and `opens` only record what has happened; no step looks at them. */
  datatype State = State(
    terminals: map<TerminalId, Terminal>,
    streams: map<StreamId, Attached>,
    nextStream: nat,
    opening: Option<Opening>,
    outbound: seq<Outbound>,
    wire: seq<Message>,
    origins: map<StreamId, Origin>,
    acks: map<StreamId, Shot>,
    lagged: set<StreamId>,
    opens: nat)

  datatype Event =
    | Push(terminal: TerminalId, bytes: seq<Byte>)
    | Broadcast(terminal: TerminalId)
    | Subscribe(terminal: TerminalId)
    | TakeSnapshot
    | SendAck(listed: bool)
    | ForwardChunk(stream: StreamId)
    | ForwardFrame(stream: StreamId)
    | SendOutput

  // ----- Steps

  /** The reader pushes a non-empty chunk under the ring's lock; it broadcasts before the next one. */
  ghost function DoPush(s: State, t: TerminalId, bytes: seq<Byte>): State {
    if t in s.terminals && s.terminals[t].unsent == [] && bytes != [] then
      var term := s.terminals[t];
      s.(terminals := s.terminals[t := term.(history := term.history + bytes, unsent := bytes)])
    else s
  }

  function Deliver(sub: Subscription, to: TerminalId, t: TerminalId, c: Chunk): Subscription {
    if to == t then sub.Receive(c) else sub
  }

  /** Later, without the lock, the chunk goes to every subscription of the terminal. */
  ghost function DoBroadcast(s: State, t: TerminalId): State {
    if t in s.terminals && s.terminals[t].unsent != [] then
      var term := s.terminals[t];
      var c := Chunk(|term.history|, term.unsent);
      var streams := map id | id in s.streams ::
        s.streams[id].(sub := Deliver(s.streams[id].sub, s.streams[id].terminal, t, c));
      var opening := if s.opening.None? then None
        else Some(s.opening.value.(sub := Deliver(s.opening.value.sub, s.opening.value.terminal, t, c)));
      var late := (set id | id in streams && streams[id].sub.lagged)
        + (if opening.Some? && opening.value.sub.lagged then {opening.value.stream} else {});
      s.(terminals := s.terminals[t := term.(unsent := [])],
         streams := streams, opening := opening, lagged := s.lagged + late)
    else s
  }

  /** An open request: every attached stream is dropped, an id is taken, a subscription made. */
  ghost function DoSubscribe(s: State, t: TerminalId): State {
    if s.opening.Some? then s
    else if t !in s.terminals then s.(wire := s.wire + [UnknownTerminal])
    else
      var id := s.nextStream;
      s.(streams := map[],
         nextStream := if id < U32_MAX then id + 1 else id,
         opening := Some(Opening(id, t, Subscription([], false), None)),
         origins := s.origins[id := Origin(t, Max(0, s.terminals[t].Sent()))],
         opens := s.opens + 1)
  }

  /** The bounded snapshot of the ring, rendered. */
  ghost function Shoot<P>(lib: Library<P>, term: Terminal): Shot {
    var start := Ring.BoundedStart(lib, term.interval, term.history, OPEN_TERMINAL_MAX_BYTES);
    Shot(start, |term.history|,
         SnapshotPrefix.PrefixBytes(Ring.StateAt(lib, term.history, start)) + term.history[start..])
  }

  ghost function DoSnapshot<P>(lib: Library<P>, s: State): State {
    if s.opening.Some? && s.opening.value.shot.None? && s.opening.value.terminal in s.terminals then
      s.(opening := Some(s.opening.value.(shot := Some(Shoot(lib, s.terminals[s.opening.value.terminal])))))
    else s
  }

  /** The acknowledgement, then the forwarder; or an error, and the subscription is dropped. */
  ghost function DoAck(s: State, listed: bool): State {
    if s.opening.Some? && s.opening.value.shot.Some? then
      var o := s.opening.value;
      if listed then
        s.(opening := None,
           wire := s.wire + [Ack(o.stream, o.terminal, o.shot.value)],
           acks := s.acks[o.stream := o.shot.value],
           streams := s.streams[o.stream := Attached(o.terminal, o.sub, [], false)])
      else s.(opening := None, wire := s.wire + [UnknownTerminal])
    else s
  }

  /** The forwarder takes a chunk and cuts it into frames; an impossible chunk ends it. */
  ghost function DoForwardChunk(s: State, id: StreamId): State {
    if id in s.streams && !s.streams[id].ended && s.streams[id].frames == [] && s.streams[id].sub.queue != [] then
      var a := s.streams[id];
      var sub := a.sub.(queue := a.sub.queue[1..]);
      match LiveFrames(a.sub.queue[0])
      case Some(frames) => s.(streams := s.streams[id := a.(sub := sub, frames := frames)])
      case None => s.(streams := s.streams[id := a.(sub := sub, ended := true)])
    else s
  }

  /** One frame into the connection's output queue, when there is room. */
  ghost function DoForwardFrame(s: State, id: StreamId): State {
    if id in s.streams && s.streams[id].frames != [] && |s.outbound| < OUTPUT_QUEUE_CAP then
      var a := s.streams[id];
      s.(streams := s.streams[id := a.(frames := a.frames[1..])],
         outbound := s.outbound + [Outbound(id, a.terminal, a.frames[0])])
    else s
  }

  /** The dispatch loop writes a frame of a stream that is still attached, and drops any other. */
  ghost function DoSendOutput(s: State): State {
    if s.opening.None? && s.outbound != [] then
      var o := s.outbound[0];
      if o.stream in s.streams && s.streams[o.stream].terminal == o.terminal then
        s.(outbound := s.outbound[1..], wire := s.wire + [Data(o.stream, o.frame)])
      else s.(outbound := s.outbound[1..])
    else s
  }

  ghost function Next<P>(lib: Library<P>, s: State, e: Event): State {
    match e
    case Push(t, bytes) => DoPush(s, t, bytes)
    case Broadcast(t) => DoBroadcast(s, t)
    case Subscribe(t) => DoSubscribe(s, t)
    case TakeSnapshot => DoSnapshot(lib, s)
    case SendAck(listed) => DoAck(s, listed)
    case ForwardChunk(id) => DoForwardChunk(s, id)
    case ForwardFrame(id) => DoForwardFrame(s, id)
    case SendOutput => DoSendOutput(s)
  }

  /** A fresh connection to terminals that have printed whatever they have printed. */
  ghost predicate Start(s: State) {
    && (forall t :: t in s.terminals ==> Settled(s.terminals[t]))
    && s.streams == map[] && s.nextStream == 1 && s.opening.None? && s.outbound == [] && s.wire == []
    && s.origins == map[] && s.acks == map[] && s.lagged == {} && s.opens == 0
  }

  ghost function Run<P>(lib: Library<P>, s: State, events: seq<Event>): State {
    if events == [] then s else Next(lib, Run(lib, s, events[..|events| - 1]), events[|events| - 1])
  }

  // ----- Everything a stream has on its way

  function OnWire(wire: seq<Message>, id: StreamId): seq<Frame> {
    if wire == [] then []
    else
      var last := wire[|wire| - 1];
      OnWire(wire[..|wire| - 1], id) + (if last.Data? && last.stream == id then [last.frame] else [])
  }

  function Outgoing(outbound: seq<Outbound>, id: StreamId): seq<Frame>
    decreases |outbound|
  {
    if outbound == [] then []
    else (if outbound[0].stream == id then [outbound[0].frame] else []) + Outgoing(outbound[1..], id)
  }

  function Queued(queue: seq<Chunk>): seq<Frame>
    decreases |queue|
  {
    if queue == [] then []
    else (if LiveFrames(queue[0]).Some? then LiveFrames(queue[0]).value else []) + Queued(queue[1..])
  }

  /** The frames on the wire, then those still to come, in the order they will arrive. */
  ghost function InFlight(s: State, id: StreamId): seq<Frame> {
    if s.opening.Some? && s.opening.value.stream == id then
      OnWire(s.wire, id) + Queued(s.opening.value.sub.queue)
    else if id in s.streams then
      OnWire(s.wire, id) + (Outgoing(s.outbound, id) + (s.streams[id].frames + Queued(s.streams[id].sub.queue)))
    else OnWire(s.wire, id)
  }

  ghost predicate Active(s: State, id: StreamId) {
    id in s.streams || (s.opening.Some? && s.opening.value.stream == id)
  }

  ghost function ShotOf(s: State, id: StreamId): Option<Shot> {
    if id in s.acks then Some(s.acks[id])
    else if s.opening.Some? && s.opening.value.stream == id then s.opening.value.shot
    else None
  }

  // ----- The invariant

  predicate Settled(term: Terminal) {
    && term.interval > 0
    && |term.unsent| <= |term.history|
    && term.unsent == term.history[|term.history| - |term.unsent|..]
  }

  /** What holds of the frames of one subscription. */
  predicate StreamOk(term: Terminal, base: nat, late: bool, active: bool, frames: seq<Frame>) {
    && base <= term.Sent()
    && Slices(term.history, frames, base)
    && (!late ==> Gapless(frames, base))
    && (active ==> End(frames, base) <= term.Sent())
    && (active && !late ==> End(frames, base) == term.Sent())
  }

  /**
   Where a snapshot of everything `seen` starts: if the output since any anchor ever placed fits
   an open, at the newest anchor; if it fits since none, at the end.
   */
  ghost predicate StartsAtAnchor<P>(lib: Library<P>, interval: nat, seen: seq<Byte>, start: nat) {
    var offs := Ring.Placed(lib, interval, seen);
    && ((exists k :: 0 <= k < |offs| && |seen| - offs[k] <= OPEN_TERMINAL_MAX_BYTES) ==> start == offs[|offs| - 1])
    && ((forall k :: 0 <= k < |offs| ==> |seen| - offs[k] > OPEN_TERMINAL_MAX_BYTES) ==> start == |seen|)
  }

  /** What holds of a snapshot against the frames: it ends between chunks. */
  ghost predicate ShotOk<P>(lib: Library<P>, term: Terminal, base: nat, shot: Shot, frames: seq<Frame>) {
    && shot.start <= shot.end <= |term.history|
    && base <= shot.end
    && (term.Sent() < shot.end ==> shot.end == |term.history|)
    && NoStraddle(frames, shot.end)
    && shot.render == SnapshotPrefix.PrefixBytes(Ring.StateAt(lib, term.history, shot.start))
                      + term.history[shot.start..shot.end]
    && StartsAtAnchor(lib, term.interval, term.history[..shot.end], shot.start)
  }

  /** Queued chunks are possible ones, and a receiver that lagged is on record. */
  predicate SubOk(sub: Subscription, late: bool) {
    (sub.lagged ==> late) && forall i :: 0 <= i < |sub.queue| ==> LiveFrames(sub.queue[i]).Some?
  }

  ghost predicate IdsOk(s: State) {
    && (forall id :: id in s.origins ==> 0 < id < s.nextStream && s.origins[id].terminal in s.terminals)
    && (forall id :: id in s.acks ==> id in s.origins)
    && (forall id :: id in s.streams ==> id in s.acks && s.streams[id].terminal == s.origins[id].terminal
                                         && !s.streams[id].ended && SubOk(s.streams[id].sub, id in s.lagged))
    && (s.opening.Some? ==>
          var o := s.opening.value;
          && o.stream in s.origins && o.stream !in s.acks && s.streams == map[]
          && s.origins[o.stream].terminal == o.terminal
          && SubOk(o.sub, o.stream in s.lagged))
    && (forall i :: 0 <= i < |s.outbound| ==>
          && s.outbound[i].stream in s.acks
          && s.outbound[i].terminal == s.origins[s.outbound[i].stream].terminal)
    && (forall i :: 0 <= i < |s.wire| ==> s.wire[i].Data? ==> s.wire[i].stream in s.acks)
    && (forall i :: 0 <= i < |s.wire| ==> s.wire[i].Ack? ==>
          && s.wire[i].stream in s.acks && s.acks[s.wire[i].stream] == s.wire[i].shot
          && s.origins[s.wire[i].stream].terminal == s.wire[i].terminal)
    && s.lagged <= s.origins.Keys
    && s.nextStream == s.opens + 1
  }

  ghost predicate Good<P>(lib: Library<P>, s: State, id: StreamId)
    requires id in s.origins && s.origins[id].terminal in s.terminals
  {
    var term := s.terminals[s.origins[id].terminal];
    && StreamOk(term, s.origins[id].base, id in s.lagged, Active(s, id), InFlight(s, id))
    && (ShotOf(s, id).Some? ==> ShotOk(lib, term, s.origins[id].base, ShotOf(s, id).value, InFlight(s, id)))
  }

  ghost predicate Inv<P>(lib: Library<P>, s: State) {
    && (forall t :: t in s.terminals ==> Settled(s.terminals[t]))
    && IdsOk(s)
    && (forall id :: id in s.origins ==> Good(lib, s, id))
  }

  // ----- Lists of frames

  lemma OnWireSnoc(wire: seq<Message>, m: Message, id: StreamId)
    ensures OnWire(wire + [m], id) == OnWire(wire, id) + (if m.Data? && m.stream == id then [m.frame] else [])
  {
    assert (wire + [m])[..|wire|] == wire;
  }

  lemma {:induction false} OnWireNone(wire: seq<Message>, id: StreamId)
    requires forall i :: 0 <= i < |wire| ==> wire[i].Data? ==> wire[i].stream != id
    ensures OnWire(wire, id) == []
  {
    if wire != [] {
      OnWireNone(wire[..|wire| - 1], id);
    }
  }

  lemma {:induction false} OutgoingNone(outbound: seq<Outbound>, id: StreamId)
    requires forall i :: 0 <= i < |outbound| ==> outbound[i].stream != id
    ensures Outgoing(outbound, id) == []
    decreases |outbound|
  {
    if outbound != [] {
      OutgoingNone(outbound[1..], id);
    }
  }

  lemma {:induction false} OutgoingSnoc(outbound: seq<Outbound>, o: Outbound, id: StreamId)
    ensures Outgoing(outbound + [o], id) == Outgoing(outbound, id) + (if o.stream == id then [o.frame] else [])
    decreases |outbound|
  {
    var longer := outbound + [o];
    OutgoingStep(longer, id);
    if outbound == [] {
      assert longer[1..] == [];
    } else {
      OutgoingStep(outbound, id);
      OutgoingSnoc(outbound[1..], o, id);
      hide Outgoing;
      assert longer[1..] == outbound[1..] + [o] && longer[0] == outbound[0];
    }
  }

  lemma OutgoingStep(outbound: seq<Outbound>, id: StreamId)
    requires outbound != []
    ensures Outgoing(outbound, id)
            == (if outbound[0].stream == id then [outbound[0].frame] else []) + Outgoing(outbound[1..], id)
  {
  }

  lemma {:induction false} QueuedSnoc(queue: seq<Chunk>, c: Chunk)
    requires LiveFrames(c).Some?
    ensures Queued(queue + [c]) == Queued(queue) + LiveFrames(c).value
    decreases |queue|
  {
    hide LiveFrames;
    var longer := queue + [c];
    QueuedStep(longer);
    if queue == [] {
      assert longer[1..] == [];
    } else {
      QueuedStep(queue);
      QueuedSnoc(queue[1..], c);
      hide Queued;
      assert longer[1..] == queue[1..] + [c] && longer[0] == queue[0];
    }
  }

  lemma QueuedStep(queue: seq<Chunk>)
    requires queue != []
    ensures Queued(queue) == (if LiveFrames(queue[0]).Some? then LiveFrames(queue[0]).value else []) + Queued(queue[1..])
  {
    hide LiveFrames;
  }

  // ----- Each kind of change keeps a stream in order

  /** More history, nothing more broadcast. */
  lemma PushKeeps<P>(lib: Library<P>, term: Terminal, bytes: seq<Byte>, base: nat, late: bool, active: bool,
                     frames: seq<Frame>, shot: Option<Shot>)
    requires Settled(term) && term.unsent == []
    requires StreamOk(term, base, late, active, frames)
    requires shot.Some? ==> ShotOk(lib, term, base, shot.value, frames)
    ensures var after := term.(history := term.history + bytes, unsent := bytes);
            && Settled(after)
            && StreamOk(after, base, late, active, frames)
            && (shot.Some? ==> ShotOk(lib, after, base, shot.value, frames))
  {
    SlicesGrow(term.history, bytes, frames, base);
    var longer := term.history + bytes;
    assert bytes == longer[|longer| - |bytes|..];
    if shot.Some? {
      PushKeepsShot(lib, term, bytes, base, frames, shot.value);
    }
    hide ShotOk, Slices, Gapless;
  }

  lemma PushKeepsShot<P>(lib: Library<P>, term: Terminal, bytes: seq<Byte>, base: nat, frames: seq<Frame>, shot: Shot)
    requires Settled(term) && term.unsent == [] && ShotOk(lib, term, base, shot, frames)
    ensures ShotOk(lib, term.(history := term.history + bytes, unsent := bytes), base, shot, frames)
  {
    var longer := term.history + bytes;
    assert longer[..shot.start] == term.history[..shot.start];
    assert longer[shot.start..shot.end] == term.history[shot.start..shot.end];
    assert longer[..shot.end] == term.history[..shot.end];
    hide SnapshotPrefix.PrefixBytes, Advance, NoStraddle, StartsAtAnchor;
  }

  /** The chunk goes out; a stream that does not take it is none the wiser. */
  lemma BroadcastKeepsOthers<P>(lib: Library<P>, term: Terminal, base: nat, late: bool,
                                frames: seq<Frame>, shot: Option<Shot>)
    requires Settled(term)
    requires StreamOk(term, base, late, false, frames)
    requires shot.Some? ==> ShotOk(lib, term, base, shot.value, frames)
    ensures StreamOk(term.(unsent := []), base, late, false, frames)
    ensures shot.Some? ==> ShotOk(lib, term.(unsent := []), base, shot.value, frames)
  {
    hide StartsAtAnchor, Ring.StateAt;
    hide SnapshotPrefix.PrefixBytes, Advance, Slices, Gapless;
  }

  /** The frames of the chunk that is about to be broadcast. */
  lemma UnsentFrames(term: Terminal) returns (frames: seq<Frame>)
    requires Settled(term) && term.unsent != []
    ensures LiveFrames(Chunk(|term.history|, term.unsent)) == Some(frames)
    ensures Slices(term.history, frames, term.Sent()) && Gapless(frames, term.Sent())
    ensures End(frames, term.Sent()) == |term.history| && frames != []
  {
    frames := Cut(term.Sent(), term.unsent);
    CutIsExact(term.history, term.Sent(), term.unsent);
    CutStep(term.Sent(), term.unsent);
  }

  lemma BroadcastKeeps<P>(lib: Library<P>, term: Terminal, base: nat, late: bool, frames: seq<Frame>,
                          more: seq<Frame>, shot: Option<Shot>)
    requires Settled(term) && term.unsent != []
    requires StreamOk(term, base, late, true, frames)
    requires shot.Some? ==> ShotOk(lib, term, base, shot.value, frames)
    requires Slices(term.history, more, term.Sent()) && Gapless(more, term.Sent()) && more != []
    requires End(more, term.Sent()) == |term.history|
    ensures StreamOk(term.(unsent := []), base, late, true, frames + more)
    ensures shot.Some? ==> ShotOk(lib, term.(unsent := []), base, shot.value, frames + more)
  {
    hide StartsAtAnchor, Ring.StateAt;
    SlicesEnd(term.history, frames, base);
    SlicesFromEarlier(term.history, more, term.Sent(), End(frames, base));
    SlicesSplit(term.history, frames, more, base);
    GaplessSplit(frames, more, base);
    if shot.Some? {
      NewFramesDoNotStraddle(term, more, shot.value.end);
      StraddleSplit(frames, more, shot.value.end);
    }
    hide SnapshotPrefix.PrefixBytes, Advance, Slices, Gapless;
  }

  lemma NewFramesDoNotStraddle(term: Terminal, more: seq<Frame>, cut: nat)
    requires Settled(term)
    requires Slices(term.history, more, term.Sent()) && End(more, term.Sent()) == |term.history|
    requires term.Sent() < cut ==> cut == |term.history|
    ensures NoStraddle(more, cut)
  {
    forall i | 0 <= i < |more|
      ensures more[i].seqNo <= cut || cut <= more[i].Start()
    {
      SlicesWithin(term.history, more, term.Sent(), i);
    }
  }

  /** A full receiver forgets its oldest chunk: what is left is still in order. */
  lemma LagKeeps<P>(lib: Library<P>, term: Terminal, base: nat, late: bool, front: seq<Frame>, lost: seq<Frame>,
                    back: seq<Frame>, shot: Option<Shot>)
    requires Settled(term)
    requires StreamOk(term, base, late, true, front + (lost + back))
    requires shot.Some? ==> ShotOk(lib, term, base, shot.value, front + (lost + back))
    ensures StreamOk(term, base, true, true, front + back)
    ensures shot.Some? ==> ShotOk(lib, term, base, shot.value, front + back)
  {
    hide StartsAtAnchor, Ring.StateAt;
    LagSlices(term.history, base, front, lost, back);
    hide SnapshotPrefix.PrefixBytes, Ring.StateAt, Advance, Slices, Gapless, NoStraddle, End;
    if shot.Some? {
      StraddleSplit(front, lost + back, shot.value.end);
      StraddleSplit(lost, back, shot.value.end);
      StraddleSplit(front, back, shot.value.end);
    }
  }

  lemma LagSlices(history: seq<Byte>, base: nat, front: seq<Frame>, lost: seq<Frame>, back: seq<Frame>)
    requires Slices(history, front + (lost + back), base) && base <= |history|
    ensures Slices(history, front + back, base)
    ensures End(front + back, base) <= End(front + (lost + back), base)
  {
    SlicesSplit(history, front, lost + back, base);
    SlicesSplit(history, lost, back, End(front, base));
    hide Slices;
    SlicesEnd(history, front, base);
    SlicesEnd(history, lost, End(front, base));
    SlicesEnd(history, back, End(lost, End(front, base)));
    SlicesFromEarlier(history, back, End(lost, End(front, base)), End(front, base));
    SlicesSplit(history, front, back, base);
  }

  /** Losing the tail of what was coming, for good. */
  lemma DetachKeeps<P>(lib: Library<P>, term: Terminal, base: nat, late: bool, active: bool,
                       front: seq<Frame>, back: seq<Frame>, shot: Option<Shot>)
    requires StreamOk(term, base, late, active, front + back)
    requires shot.Some? ==> ShotOk(lib, term, base, shot.value, front + back)
    ensures StreamOk(term, base, late, false, front)
    ensures shot.Some? ==> ShotOk(lib, term, base, shot.value, front)
  {
    hide StartsAtAnchor, Ring.StateAt;
    SlicesSplit(term.history, front, back, base);
    GaplessSplit(front, back, base);
    if shot.Some? {
      StraddleSplit(front, back, shot.value.end);
    }
    hide SnapshotPrefix.PrefixBytes, Advance, Slices, Gapless;
  }

  /** A snapshot taken now ends past everything broadcast. */
  lemma SnapshotKeeps<P>(lib: Library<P>, term: Terminal, base: nat, late: bool, frames: seq<Frame>)
    requires Settled(term) && StreamOk(term, base, late, true, frames)
    ensures ShotOk(lib, term, base, Shoot(lib, term), frames)
  {
    var shot := Shoot(lib, term);
    forall i | 0 <= i < |frames|
      ensures frames[i].seqNo <= shot.end || shot.end <= frames[i].Start()
    {
      SlicesWithin(term.history, frames, base, i);
    }
    assert term.history[shot.start..] == term.history[shot.start..shot.end];
    assert term.history[..shot.end] == term.history;
    ShootStartsAtAnchor(lib, term.interval, term.history);
    hide SnapshotPrefix.PrefixBytes, Advance, Slices, Gapless, Ring.BoundedStart, StartsAtAnchor;
  }

  lemma ShootStartsAtAnchor<P>(lib: Library<P>, interval: nat, seen: seq<Byte>)
    requires interval > 0
    ensures StartsAtAnchor(lib, interval, seen, Ring.BoundedStart(lib, interval, seen, OPEN_TERMINAL_MAX_BYTES))
  {
    Ring.PlacedIncreasing(lib, interval, seen);
    var offs := Ring.Placed(lib, interval, seen);
    hide Ring.Placed;
    forall k | 0 <= k < |offs|
      ensures offs[k] <= offs[|offs| - 1]
    {
    }
  }

  /** An open carries no output only when there is none since the newest anchor, or too much. */
  lemma EmptyOpen<P>(lib: Library<P>, interval: nat, seen: seq<Byte>, start: nat)
    requires StartsAtAnchor(lib, interval, seen, start) && start == |seen|
    ensures var offs := Ring.Placed(lib, interval, seen);
            offs[|offs| - 1] == |seen| || |seen| - offs[|offs| - 1] > OPEN_TERMINAL_MAX_BYTES
  {
    hide Ring.Placed;
    var offs := Ring.Placed(lib, interval, seen);
    if |seen| - offs[|offs| - 1] <= OPEN_TERMINAL_MAX_BYTES {
      assert start == offs[|offs| - 1];
    }
  }

  /** What the open handler does on a ring: the bounded snapshot, with the rendered state in front. */
  method TakeShot<P>(ring: Ring.ScrollbackRing<P>, ghost unsent: seq<Byte>) returns (shot: Shot)
    requires ring.Valid()
    ensures shot == Shoot(ring.tracker.lib, Terminal(ring.history, unsent, ring.anchorInterval))
  {
    hide Ring.ScrollbackRing.Valid, SnapshotPrefix.PrefixBytes, Ring.StateAt, Ring.LastPlaced;
    var s := ring.SnapshotWithMaxBytes(OPEN_TERMINAL_MAX_BYTES);
    var prefix := SnapshotPrefix.RenderPrefixFromAnchor(s.anchorState);
    shot := Shot(s.headSeq - |s.bytes|, s.headSeq, prefix + s.bytes);
  }

  /** A chunk arriving at a subscription, full or not. */
  lemma ReceiveKeeps<P>(lib: Library<P>, term: Terminal, base: nat, late: bool, front: seq<Frame>,
                        sub: Subscription, shot: Option<Shot>)
    requires Settled(term) && term.unsent != [] && SubOk(sub, late)
    requires StreamOk(term, base, late, true, front + Queued(sub.queue))
    requires shot.Some? ==> ShotOk(lib, term, base, shot.value, front + Queued(sub.queue))
    ensures var after := sub.Receive(Chunk(|term.history|, term.unsent));
            var late' := late || after.lagged;
            && SubOk(after, late')
            && StreamOk(term.(unsent := []), base, late', true, front + Queued(after.queue))
            && (shot.Some? ==> ShotOk(lib, term.(unsent := []), base, shot.value, front + Queued(after.queue)))
  {
    var c := Chunk(|term.history|, term.unsent);
    var more := UnsentFrames(term);
    ReceivedOk(sub, late, c);
    hide StreamOk, ShotOk, LiveFrames, SubOk, Queued;
    if |sub.queue| == SUBSCRIBER_CAP {
      QueuedHead(sub.queue, late, sub.lagged);
      LagKeeps(lib, term, base, late, front, LiveFrames(sub.queue[0]).value, Queued(sub.queue[1..]), shot);
      AppendKeeps(lib, term, base, true, front, sub.queue[1..], shot);
    } else {
      AppendKeeps(lib, term, base, late, front, sub.queue, shot);
    }
  }

  lemma ReceivedOk(sub: Subscription, late: bool, c: Chunk)
    requires SubOk(sub, late) && LiveFrames(c).Some?
    ensures SubOk(sub.Receive(c), late || sub.Receive(c).lagged)
  {
    hide LiveFrames;
  }

  lemma QueuedHead(queue: seq<Chunk>, late: bool, lagged: bool)
    requires queue != [] && SubOk(Subscription(queue, lagged), late)
    ensures LiveFrames(queue[0]).Some?
    ensures Queued(queue) == LiveFrames(queue[0]).value + Queued(queue[1..])
  {
    hide LiveFrames;
  }

  lemma AppendKeeps<P>(lib: Library<P>, term: Terminal, base: nat, late: bool, front: seq<Frame>,
                       queue: seq<Chunk>, shot: Option<Shot>)
    requires Settled(term) && term.unsent != []
    requires StreamOk(term, base, late, true, front + Queued(queue))
    requires shot.Some? ==> ShotOk(lib, term, base, shot.value, front + Queued(queue))
    ensures var longer := front + Queued(queue + [Chunk(|term.history|, term.unsent)]);
            && StreamOk(term.(unsent := []), base, late, true, longer)
            && (shot.Some? ==> ShotOk(lib, term.(unsent := []), base, shot.value, longer))
  {
    hide StreamOk, ShotOk, LiveFrames, Queued, Slices, Gapless;
    var more := UnsentFrames(term);
    QueuedSnoc(queue, Chunk(|term.history|, term.unsent));
    BroadcastKeeps(lib, term, base, late, front + Queued(queue), more, shot);
    assert front + Queued(queue) + more == front + (Queued(queue) + more);
  }

  // ----- The invariant is kept

  /** A step that leaves alone everything an already known stream is made of. */
  lemma GoodSame<P>(lib: Library<P>, s: State, s': State, id: StreamId)
    requires id in s.origins && s.origins[id].terminal in s.terminals && Good(lib, s, id)
    requires id in s'.origins && s'.origins[id] == s.origins[id]
    requires s.origins[id].terminal in s'.terminals
    requires s'.terminals[s.origins[id].terminal] == s.terminals[s.origins[id].terminal]
    requires id in s'.lagged <==> id in s.lagged
    requires Active(s', id) <==> Active(s, id)
    requires ShotOf(s', id) == ShotOf(s, id)
    requires InFlight(s', id) == InFlight(s, id)
    ensures Good(lib, s', id)
  {
    hide StreamOk, ShotOk, InFlight, Active, ShotOf;
  }

  lemma PushStep<P>(lib: Library<P>, s: State, t: TerminalId, bytes: seq<Byte>)
    requires Inv(lib, s)
    ensures Inv(lib, DoPush(s, t, bytes))
  {
    hide StreamOk, ShotOk, InFlight;
    var s' := DoPush(s, t, bytes);
    if s' != s {
      PushSettled(s.terminals[t], bytes);
      PushIds(s, t, bytes);
      hide IdsOk, Settled;
      forall id | id in s'.origins
        ensures Good(lib, s', id)
      {
        PushGood(lib, s, t, bytes, id);
      }
    }
  }

  lemma PushIds(s: State, t: TerminalId, bytes: seq<Byte>)
    requires IdsOk(s)
    ensures IdsOk(DoPush(s, t, bytes))
    ensures forall id :: id in s.origins ==> s.origins[id].terminal in s.terminals
  {
    hide SubOk;
  }

  lemma PushGood<P>(lib: Library<P>, s: State, t: TerminalId, bytes: seq<Byte>, id: StreamId)
    requires id in s.origins && s.origins[id].terminal in s.terminals && Good(lib, s, id)
    requires t in s.terminals ==> Settled(s.terminals[t])
    ensures Good(lib, DoPush(s, t, bytes), id)
  {
    hide StreamOk, ShotOk, InFlight, Settled;
    var s' := DoPush(s, t, bytes);
    if s' != s {
      SameFlight(s, s', id);
      if s.origins[id].terminal == t {
        PushKeeps(lib, s.terminals[t], bytes, s.origins[id].base, id in s.lagged, Active(s, id), InFlight(s, id), ShotOf(s, id));
      }
    }
  }

  lemma SameFlight(s: State, s': State, id: StreamId)
    requires s'.opening == s.opening && s'.streams == s.streams && s'.outbound == s.outbound && s'.wire == s.wire
    ensures InFlight(s', id) == InFlight(s, id)
  {
  }

  lemma PushSettled(term: Terminal, bytes: seq<Byte>)
    requires Settled(term)
    ensures Settled(term.(history := term.history + bytes, unsent := bytes))
  {
  }

  lemma BroadcastStep<P>(lib: Library<P>, s: State, t: TerminalId)
    requires Inv(lib, s)
    ensures Inv(lib, DoBroadcast(s, t))
  {
    hide StreamOk, ShotOk, InFlight;
    var s' := DoBroadcast(s, t);
    if t in s.terminals && s.terminals[t].unsent != [] {
      hide LiveFrames, SubOk, IdsOk;
      assert forall id :: id in s.origins ==> s.origins[id].terminal in s.terminals by { OriginsKnown(s); }
      forall id | id in s'.origins
        ensures Good(lib, s', id)
        ensures id in s'.streams ==> SubOk(s'.streams[id].sub, id in s'.lagged)
        ensures s'.opening.Some? && s'.opening.value.stream == id ==> SubOk(s'.opening.value.sub, id in s'.lagged)
      {
        BroadcastStepAt(lib, s, t, id);
      }
      BroadcastIds(s, t);
    }
  }

  ghost predicate SubsOk(s: State) {
    forall id :: id in s.origins ==>
      && (id in s.streams ==> SubOk(s.streams[id].sub, id in s.lagged))
      && (s.opening.Some? && s.opening.value.stream == id ==> SubOk(s.opening.value.sub, id in s.lagged))
  }

  lemma BroadcastIds(s: State, t: TerminalId)
    requires IdsOk(s)
    requires SubsOk(DoBroadcast(s, t))
    ensures IdsOk(DoBroadcast(s, t))
    ensures forall x :: x in s.terminals ==> x in DoBroadcast(s, t).terminals
  {
    hide SubOk;
  }

  lemma OriginsKnown(s: State)
    requires IdsOk(s)
    ensures forall id :: id in s.origins ==> s.origins[id].terminal in s.terminals
  {
  }

  lemma BroadcastStepAt<P>(lib: Library<P>, s: State, t: TerminalId, id: StreamId)
    requires Inv(lib, s) && id in s.origins
    requires t in s.terminals && s.terminals[t].unsent != []
    ensures var s' := DoBroadcast(s, t);
            && Good(lib, s', id)
            && (id in s'.streams ==> SubOk(s'.streams[id].sub, id in s'.lagged))
            && (s'.opening.Some? && s'.opening.value.stream == id ==> SubOk(s'.opening.value.sub, id in s'.lagged))
  {
    assert Good(lib, s, id);
    hide StreamOk, ShotOk, InFlight, SubOk, DoBroadcast;
    if s.opening.Some? && s.opening.value.stream == id {
      BroadcastToOpening(lib, s, t, id);
    } else if id in s.streams {
      BroadcastToAttached(lib, s, t, id);
    } else {
      BroadcastToNone(lib, s, t, id);
    }
  }

  lemma BroadcastToOpening<P>(lib: Library<P>, s: State, t: TerminalId, id: StreamId)
    requires IdsOk(s) && id in s.origins && s.origins[id].terminal in s.terminals && Good(lib, s, id)
    requires t in s.terminals && Settled(s.terminals[t]) && s.terminals[t].unsent != []
    requires s.opening.Some? && s.opening.value.stream == id
    ensures var s' := DoBroadcast(s, t);
            && Good(lib, s', id)
            && s'.opening.Some? && s'.opening.value.stream == id && SubOk(s'.opening.value.sub, id in s'.lagged)
            && s'.streams == map[]
  {
    hide StreamOk, ShotOk, Queued, OnWire, Outgoing, LiveFrames;
    if s.opening.value.terminal == t {
      ReceiveKeeps(lib, s.terminals[t], s.origins[id].base, id in s.lagged, OnWire(s.wire, id), s.opening.value.sub,
                   ShotOf(s, id));
    }
  }

  lemma BroadcastToAttached<P>(lib: Library<P>, s: State, t: TerminalId, id: StreamId)
    requires IdsOk(s) && id in s.origins && s.origins[id].terminal in s.terminals && Good(lib, s, id)
    requires t in s.terminals && Settled(s.terminals[t]) && s.terminals[t].unsent != []
    requires id in s.streams && s.opening.None?
    ensures var s' := DoBroadcast(s, t);
            Good(lib, s', id) && id in s'.streams && SubOk(s'.streams[id].sub, id in s'.lagged) && s'.opening.None?
  {
    hide StreamOk, ShotOk, Queued, OnWire, Outgoing, LiveFrames;
    var s' := DoBroadcast(s, t);
    var a := s.streams[id];
    var front := OnWire(s.wire, id) + (Outgoing(s.outbound, id) + a.frames);
    Regroup(OnWire(s.wire, id), Outgoing(s.outbound, id), a.frames, Queued(a.sub.queue));
    Regroup(OnWire(s.wire, id), Outgoing(s.outbound, id), a.frames, Queued(s'.streams[id].sub.queue));
    if a.terminal == t {
      ReceiveKeeps(lib, s.terminals[t], s.origins[id].base, id in s.lagged, front, a.sub, ShotOf(s, id));
    }
  }

  lemma BroadcastToNone<P>(lib: Library<P>, s: State, t: TerminalId, id: StreamId)
    requires IdsOk(s) && id in s.origins && s.origins[id].terminal in s.terminals && Good(lib, s, id)
    requires t in s.terminals && Settled(s.terminals[t]) && s.terminals[t].unsent != []
    requires id !in s.streams && !(s.opening.Some? && s.opening.value.stream == id)
    ensures var s' := DoBroadcast(s, t);
            Good(lib, s', id) && id !in s'.streams && !(s'.opening.Some? && s'.opening.value.stream == id)
  {
    hide StreamOk, ShotOk, Queued, OnWire, Outgoing;
    if s.origins[id].terminal == t {
      BroadcastKeepsOthers(lib, s.terminals[t], s.origins[id].base, id in s.lagged, InFlight(s, id), ShotOf(s, id));
    }
  }

  lemma Regroup<T>(a: seq<T>, b: seq<T>, c: seq<T>, d: seq<T>)
    ensures a + (b + c) + d == a + (b + (c + d))
  {
  }

  lemma SubscribeStep<P>(lib: Library<P>, s: State, t: TerminalId)
    requires Inv(lib, s)
    requires DoSubscribe(s, t).opens < U32_MAX
    ensures Inv(lib, DoSubscribe(s, t))
  {
    hide StreamOk, ShotOk, InFlight;
    var s' := DoSubscribe(s, t);
    if s.opening.Some? {
    } else if t !in s.terminals {
      WireOnlyStep(lib, s, UnknownTerminal);
    } else {
      assert IdsOk(s');
      forall id | id in s'.origins
        ensures Good(lib, s', id)
      {
        if id == s.nextStream {
          NewStream(lib, s, t);
        } else {
          assert Good(lib, s, id);
          OldStream(lib, s, t, id);
        }
      }
    }
  }

  lemma NewStream<P>(lib: Library<P>, s: State, t: TerminalId)
    requires Inv(lib, s) && s.opening.None? && t in s.terminals
    ensures Good(lib, DoSubscribe(s, t), s.nextStream)
  {
    var s' := DoSubscribe(s, t);
    NewFlight(s, t);
    hide InFlight, OnWire, ShotOk;
  }

  lemma NewFlight(s: State, t: TerminalId)
    requires IdsOk(s) && s.opening.None? && t in s.terminals
    ensures InFlight(DoSubscribe(s, t), s.nextStream) == []
  {
    OnWireNone(s.wire, s.nextStream);
    hide OnWire, Outgoing;
  }

  lemma OldStream<P>(lib: Library<P>, s: State, t: TerminalId, id: StreamId)
    requires s.opening.None? && t in s.terminals && id != s.nextStream
    requires id in s.origins && s.origins[id].terminal in s.terminals && Good(lib, s, id)
    ensures Good(lib, DoSubscribe(s, t), id)
  {
    var s' := DoSubscribe(s, t);
    var front := OnWire(s.wire, id);
    WireIsPrefix(s, id);
    var rest := InFlight(s, id)[|front|..];
    assert InFlight(s', id) == front;
    hide InFlight, OnWire, StreamOk, ShotOk;
    assert InFlight(s, id) == front + rest;
    DetachKeeps(lib, s.terminals[s.origins[id].terminal], s.origins[id].base, id in s.lagged, Active(s, id),
                front, rest, ShotOf(s, id));
  }

  /** A message that is not stream data changes no stream. */
  lemma WireOnlyStep<P>(lib: Library<P>, s: State, m: Message)
    requires Inv(lib, s) && m.UnknownTerminal?
    ensures Inv(lib, s.(wire := s.wire + [m]))
  {
    hide StreamOk, ShotOk, InFlight;
    var s' := s.(wire := s.wire + [m]);
    assert IdsOk(s');
    forall id | id in s'.origins
      ensures Good(lib, s', id)
    {
      assert Good(lib, s, id);
      OtherMessage(s, s', m, id);
      GoodSame(lib, s, s', id);
    }
  }

  lemma OtherMessage(s: State, s': State, m: Message, id: StreamId)
    requires s'.wire == s.wire + [m] && !m.Data?
    requires s'.opening == s.opening && s'.streams == s.streams && s'.outbound == s.outbound
    ensures InFlight(s', id) == InFlight(s, id)
  {
    OnWireSnoc(s.wire, m, id);
    assert OnWire(s'.wire, id) == OnWire(s.wire, id);
  }

  lemma SnapshotStep<P>(lib: Library<P>, s: State)
    requires Inv(lib, s)
    ensures Inv(lib, DoSnapshot(lib, s))
  {
    hide StreamOk, ShotOk, InFlight, Shoot;
    var s' := DoSnapshot(lib, s);
    if s' != s {
      assert IdsOk(s');
      forall id | id in s'.origins
        ensures Good(lib, s', id)
      {
        assert Good(lib, s, id);
        SnapshotFlight(lib, s, id);
        if id == s.opening.value.stream {
          SnapshotKeeps(lib, s.terminals[s.opening.value.terminal], s.origins[id].base, id in s.lagged, InFlight(s, id));
        }
      }
    }
  }

  lemma SnapshotFlight<P>(lib: Library<P>, s: State, id: StreamId)
    ensures InFlight(DoSnapshot(lib, s), id) == InFlight(s, id)
  {
    hide Shoot;
  }

  lemma AckStep<P>(lib: Library<P>, s: State, listed: bool)
    requires Inv(lib, s)
    ensures Inv(lib, DoAck(s, listed))
  {
    hide StreamOk, ShotOk, InFlight;
    var s' := DoAck(s, listed);
    if s.opening.Some? && s.opening.value.shot.Some? {
      assert IdsOk(s');
      forall id | id in s'.origins
        ensures Good(lib, s', id)
      {
        assert Good(lib, s, id);
        AckFlight(s, listed, id);
        if id == s.opening.value.stream && !listed {
          var o := s.opening.value;
          DetachKeeps(lib, s.terminals[o.terminal], s.origins[id].base, id in s.lagged, true, InFlight(s', id),
                      Queued(o.sub.queue), o.shot);
        }
      }
    }
  }

  lemma AckFlight(s: State, listed: bool, id: StreamId)
    requires s.opening.Some? && s.opening.value.shot.Some?
    requires forall i :: 0 <= i < |s.outbound| ==> s.outbound[i].stream != s.opening.value.stream
    requires s.streams == map[]
    ensures var s' := DoAck(s, listed);
            if id == s.opening.value.stream && !listed
            then InFlight(s, id) == InFlight(s', id) + Queued(s.opening.value.sub.queue)
            else InFlight(s', id) == InFlight(s, id)
  {
    var s' := DoAck(s, listed);
    OnWireSnoc(s.wire, s'.wire[|s.wire|], id);
    assert OnWire(s'.wire, id) == OnWire(s.wire, id);
    if id == s.opening.value.stream {
      OutgoingNone(s.outbound, id);
      var queued := Queued(s.opening.value.sub.queue);
      assert [] + ([] + queued) == queued;
    }
  }

  lemma ForwardChunkStep<P>(lib: Library<P>, s: State, id0: StreamId)
    requires Inv(lib, s)
    ensures Inv(lib, DoForwardChunk(s, id0))
  {
    hide StreamOk, ShotOk, InFlight, LiveFrames;
    var s' := DoForwardChunk(s, id0);
    if s' != s {
      ForwardChunkIds(s, id0);
      hide IdsOk;
      forall id | id in s'.origins
        ensures Good(lib, s', id)
      {
        assert Good(lib, s, id);
        ForwardChunkFlight(s, id0, id);
        GoodSame(lib, s, s', id);
      }
    }
  }

  lemma ForwardChunkIds(s: State, id0: StreamId)
    requires IdsOk(s)
    ensures IdsOk(DoForwardChunk(s, id0))
    ensures forall id :: id in s.origins ==> s.origins[id].terminal in s.terminals
    ensures id0 in s.streams ==> SubOk(s.streams[id0].sub, id0 in s.lagged)
  {
    hide LiveFrames;
    var s' := DoForwardChunk(s, id0);
    if s' != s {
      assert SubOk(s'.streams[id0].sub, id0 in s'.lagged);
    }
  }

  lemma ForwardChunkFlight(s: State, id0: StreamId, id: StreamId)
    requires id0 in s.streams ==> SubOk(s.streams[id0].sub, id0 in s.lagged)
    ensures InFlight(DoForwardChunk(s, id0), id) == InFlight(s, id)
  {
    hide LiveFrames;
    var s' := DoForwardChunk(s, id0);
    if s' != s {
      var queue := s.streams[id0].sub.queue;
      assert Queued(queue) == LiveFrames(queue[0]).value + Queued(queue[1..]);
      assert [] + Queued(queue) == Queued(queue);
    }
  }

  lemma ForwardFrameStep<P>(lib: Library<P>, s: State, id0: StreamId)
    requires Inv(lib, s)
    ensures Inv(lib, DoForwardFrame(s, id0))
  {
    hide StreamOk, ShotOk, InFlight;
    var s' := DoForwardFrame(s, id0);
    if s' != s {
      ForwardFrameIds(s, id0);
      hide IdsOk;
      forall id | id in s'.origins
        ensures Good(lib, s', id)
      {
        assert Good(lib, s, id);
        ForwardFrameFlight(s, id0, id);
        GoodSame(lib, s, s', id);
      }
    }
  }

  lemma ForwardFrameIds(s: State, id0: StreamId)
    requires IdsOk(s)
    ensures IdsOk(DoForwardFrame(s, id0))
    ensures forall id :: id in s.origins ==> s.origins[id].terminal in s.terminals
    ensures s.opening.Some? ==> s.streams == map[]
  {
    hide SubOk;
  }

  lemma ForwardFrameFlight(s: State, id0: StreamId, id: StreamId)
    requires s.opening.Some? ==> s.streams == map[]
    ensures InFlight(DoForwardFrame(s, id0), id) == InFlight(s, id)
  {
    var s' := DoForwardFrame(s, id0);
    if s' != s {
      var a := s.streams[id0];
      OutgoingSnoc(s.outbound, Outbound(id0, a.terminal, a.frames[0]), id);
      assert a.frames == [a.frames[0]] + a.frames[1..];
      if id == id0 {
        MoveOne(Outgoing(s.outbound, id), a.frames[0], a.frames[1..], Queued(a.sub.queue));
      }
    }
  }

  lemma MoveOne<T>(a: seq<T>, x: T, b: seq<T>, c: seq<T>)
    ensures a + [x] + (b + c) == a + (([x] + b) + c)
  {
  }

  lemma SendOutputStep<P>(lib: Library<P>, s: State)
    requires Inv(lib, s)
    ensures Inv(lib, DoSendOutput(s))
  {
    hide StreamOk, ShotOk, InFlight;
    var s' := DoSendOutput(s);
    if s' != s {
      SendOutputIds(s);
      hide IdsOk;
      forall id | id in s'.origins
        ensures Good(lib, s', id)
      {
        SendOutputGood(lib, s, id);
      }
    }
  }

  lemma SendOutputGood<P>(lib: Library<P>, s: State, id: StreamId)
    requires IdsOk(s) && id in s.origins && s.origins[id].terminal in s.terminals && Good(lib, s, id)
    ensures Good(lib, DoSendOutput(s), id)
  {
    SendOutputIds(s);
    hide StreamOk, ShotOk, InFlight, IdsOk;
    SendOutputFlight(s, id);
    GoodSame(lib, s, DoSendOutput(s), id);
  }

  lemma SendOutputIds(s: State)
    requires IdsOk(s)
    ensures IdsOk(DoSendOutput(s))
    ensures forall id :: id in s.origins ==> s.origins[id].terminal in s.terminals
    ensures forall x :: x in s.streams && s.outbound != [] && s.outbound[0].stream == x ==>
                          s.streams[x].terminal == s.outbound[0].terminal
  {
    hide SubOk;
  }

  lemma SendOutputFlight(s: State, id: StreamId)
    requires forall x :: x in s.streams && s.outbound != [] && s.outbound[0].stream == x ==>
                           s.streams[x].terminal == s.outbound[0].terminal
    ensures InFlight(DoSendOutput(s), id) == InFlight(s, id)
  {
    var s' := DoSendOutput(s);
    if s' != s {
      var o := s.outbound[0];
      OnWireSnoc(s.wire, Data(o.stream, o.frame), id);
      if id in s.streams {
        MoveHead(OnWire(s.wire, id), if o.stream == id then [o.frame] else [], Outgoing(s.outbound[1..], id),
                 s.streams[id].frames + Queued(s.streams[id].sub.queue));
      }
    }
  }

  lemma MoveHead<T>(a: seq<T>, x: seq<T>, b: seq<T>, c: seq<T>)
    ensures (a + x) + (b + c) == a + ((x + b) + c)
    ensures x == [] ==> a + x == a && x + b == b
  {
  }

  lemma StepKeepsInv<P>(lib: Library<P>, s: State, e: Event)
    requires Inv(lib, s) && Next(lib, s, e).opens < U32_MAX
    ensures Inv(lib, Next(lib, s, e))
  {
    hide Inv;
    match e
    case Push(t, bytes) => PushStep(lib, s, t, bytes);
    case Broadcast(t) => BroadcastStep(lib, s, t);
    case Subscribe(t) => SubscribeStep(lib, s, t);
    case TakeSnapshot => SnapshotStep(lib, s);
    case SendAck(listed) => AckStep(lib, s, listed);
    case ForwardChunk(id) => ForwardChunkStep(lib, s, id);
    case ForwardFrame(id) => ForwardFrameStep(lib, s, id);
    case SendOutput => SendOutputStep(lib, s);
  }

  lemma OpensOnlyGrow<P>(lib: Library<P>, s: State, e: Event)
    ensures s.opens <= Next(lib, s, e).opens
  {
  }

  lemma {:induction false} RunKeepsInv<P>(lib: Library<P>, s: State, events: seq<Event>)
    requires Start(s) && Run(lib, s, events).opens < U32_MAX
    ensures Inv(lib, Run(lib, s, events))
  {
    if events != [] {
      var before := Run(lib, s, events[..|events| - 1]);
      OpensOnlyGrow(lib, before, events[|events| - 1]);
      RunKeepsInv(lib, s, events[..|events| - 1]);
      StepKeepsInv(lib, before, events[|events| - 1]);
    }
  }

  // ----- What the client is promised

  /**
   For every interleaving, every acknowledgement on the wire and the data frames of its
   stream: the acknowledgement is the prefix of a state of the output followed by the output
   from there to `end`, starting at the newest anchor when that fits; every frame is an exact
   slice, in order, without overlap, and wholly on one side of `end`; and if the receiver never
   lagged, the acknowledged bytes and the frames past `end` together are the output up to the
   last frame, with no gap and no repeat.
   */
  lemma OpenIsExact<P>(lib: Library<P>, s: State, events: seq<Event>, i: nat)
    requires Start(s) && Run(lib, s, events).opens < U32_MAX
    requires i < |Run(lib, s, events).wire| && Run(lib, s, events).wire[i].Ack?
    ensures var now := Run(lib, s, events);
            var Ack(id, t, shot) := now.wire[i];
            && id in now.origins && t in now.terminals
            && var history := now.terminals[t].history;
            var frames := OnWire(now.wire, id);
            && shot.start <= shot.end <= |history|
            && shot.render == SnapshotPrefix.PrefixBytes(Ring.StateAt(lib, history, shot.start))
                              + history[shot.start..shot.end]
            && StartsAtAnchor(lib, now.terminals[t].interval, history[..shot.end], shot.start)
            && now.origins[id].base <= shot.end
            && Slices(history, frames, now.origins[id].base)
            && NoStraddle(frames, shot.end)
            && (id !in now.lagged ==>
                  var last := Max(shot.end, End(frames, now.origins[id].base));
                  && Gapless(frames, now.origins[id].base)
                  && last <= |history|
                  && history[shot.start..shot.end] + BytesAfter(frames, shot.end) == history[shot.start..last])
  {
    RunKeepsInv(lib, s, events);
    hide Run, StreamOk, ShotOk, OnWire, SnapshotPrefix.PrefixBytes, Advance, Slices, Gapless, NoStraddle, StartsAtAnchor;
    var now := Run(lib, s, events);
    var Ack(id, t, shot) := now.wire[i];
    WireOk(lib, now, i);
    ExactFrames(lib, now.terminals[t], now.origins[id].base, id in now.lagged, OnWire(now.wire, id), shot);
  }

  /** The invariant, restricted to what is on the wire of one acknowledged stream. */
  lemma WireOk<P>(lib: Library<P>, now: State, i: nat)
    requires Inv(lib, now) && i < |now.wire| && now.wire[i].Ack?
    ensures var Ack(id, t, shot) := now.wire[i];
            && id in now.origins && t in now.terminals && Settled(now.terminals[t])
            && StreamOk(now.terminals[t], now.origins[id].base, id in now.lagged, false, OnWire(now.wire, id))
            && ShotOk(lib, now.terminals[t], now.origins[id].base, shot, OnWire(now.wire, id))
  {
    hide StreamOk, ShotOk, InFlight, OnWire;
    var Ack(id, t, shot) := now.wire[i];
    assert Good(lib, now, id);
    WireIsPrefix(now, id);
    var frames := OnWire(now.wire, id);
    var rest := InFlight(now, id)[|frames|..];
    assert InFlight(now, id) == frames + rest;
    DetachKeeps(lib, now.terminals[t], now.origins[id].base, id in now.lagged, Active(now, id), frames, rest, Some(shot));
  }

  lemma ExactFrames<P>(lib: Library<P>, term: Terminal, base: nat, late: bool, frames: seq<Frame>, shot: Shot)
    requires Settled(term) && StreamOk(term, base, late, false, frames) && ShotOk(lib, term, base, shot, frames)
    ensures var history := term.history;
            && shot.start <= shot.end <= |history| && base <= shot.end
            && shot.render == SnapshotPrefix.PrefixBytes(Ring.StateAt(lib, history, shot.start))
                              + history[shot.start..shot.end]
            && StartsAtAnchor(lib, term.interval, history[..shot.end], shot.start)
            && Slices(history, frames, base) && NoStraddle(frames, shot.end)
            && (!late ==>
                  var last := Max(shot.end, End(frames, base));
                  && Gapless(frames, base)
                  && last <= |history|
                  && history[shot.start..shot.end] + BytesAfter(frames, shot.end) == history[shot.start..last])
  {
    hide SnapshotPrefix.PrefixBytes, Advance, Slices, Gapless, NoStraddle, StartsAtAnchor;
    if !late {
      var history := term.history;
      BytesAfterCut(history, frames, base, shot.end);
      var last := Max(shot.end, End(frames, base));
      assert history[shot.start..shot.end] + history[shot.end..last] == history[shot.start..last];
    }
  }

  lemma WireIsPrefix(s: State, id: StreamId)
    ensures OnWire(s.wire, id) <= InFlight(s, id)
  {
  }

  // ----- Replaced streams, and the order of acknowledgement and data

  /** Once a stream is replaced nothing more of it reaches the wire, though its frames may still be queued. */
  lemma ReplacedStreamIsSilent<P>(lib: Library<P>, s: State, e: Event, id: StreamId)
    requires Inv(lib, s) && id in s.origins && !Active(s, id)
    requires Next(lib, s, e).opens < U32_MAX
    ensures var s' := Next(lib, s, e);
            id in s'.origins && !Active(s', id) && OnWire(s'.wire, id) == OnWire(s.wire, id)
  {
    SilentWire(lib, s, e, id);
    StaysInactive(lib, s, e, id);
    hide Inv, Next, OnWire, Active;
  }

  /** A stream that a later open has dropped, or that never got going, is silent for ever. */
  lemma {:induction false} ReplacedStreamStaysSilent<P>(lib: Library<P>, s: State, events: seq<Event>, more: seq<Event>, id: StreamId)
    requires Start(s) && Run(lib, s, events + more).opens < U32_MAX
    requires id in Run(lib, s, events).origins && !Active(Run(lib, s, events), id)
    ensures id in Run(lib, s, events + more).origins && !Active(Run(lib, s, events + more), id)
    ensures OnWire(Run(lib, s, events + more).wire, id) == OnWire(Run(lib, s, events).wire, id)
    decreases |more|
  {
    if more == [] {
      assert events + more == events;
    } else {
      var front, e := more[..|more| - 1], more[|more| - 1];
      RunSnoc(lib, s, events + front, e);
      assert events + front + [e] == events + more;
      hide Inv, Next, OnWire, Active, Run, Start;
      var mid := Run(lib, s, events + front);
      OpensOnlyGrow(lib, mid, e);
      ReplacedStreamStaysSilent(lib, s, events, front, id);
      RunKeepsInv(lib, s, events + front);
      ReplacedStreamIsSilent(lib, mid, e, id);
    }
  }

  lemma RunSnoc<P>(lib: Library<P>, s: State, events: seq<Event>, e: Event)
    ensures Run(lib, s, events + [e]) == Next(lib, Run(lib, s, events), e)
  {
    assert (events + [e])[..|events|] == events;
  }

  lemma StaysInactive<P>(lib: Library<P>, s: State, e: Event, id: StreamId)
    requires 0 < id < s.nextStream && id in s.origins && !Active(s, id)
    ensures id in Next(lib, s, e).origins && !Active(Next(lib, s, e), id)
  {
    hide Shoot, LiveFrames;
    match e
    case Push(_, _) =>
    case Broadcast(_) =>
    case Subscribe(_) =>
    case TakeSnapshot =>
    case SendAck(_) =>
    case ForwardChunk(_) =>
    case ForwardFrame(_) =>
    case SendOutput =>
  }

  lemma SilentWire<P>(lib: Library<P>, s: State, e: Event, id: StreamId)
    requires id !in s.streams
    ensures OnWire(Next(lib, s, e).wire, id) == OnWire(s.wire, id)
  {
    hide OnWire, Shoot;
    var s' := Next(lib, s, e);
    if s'.wire != s.wire {
      var m := s'.wire[|s.wire|];
      assert s'.wire == s.wire + [m];
      assert !(m.Data? && m.stream == id);
      OnWireSnoc(s.wire, m, id);
    }
  }

  predicate AckedIn(wire: seq<Message>, id: StreamId) {
    exists i :: 0 <= i < |wire| && wire[i].Ack? && wire[i].stream == id
  }

  ghost predicate DataFollowsAck(s: State) {
    && (forall id :: id in s.acks ==> AckedIn(s.wire, id))
    && (forall i :: 0 <= i < |s.wire| && s.wire[i].Data? ==> AckedIn(s.wire[..i], s.wire[i].stream))
  }

  lemma AckedInGrows(wire: seq<Message>, m: Message, id: StreamId)
    requires AckedIn(wire, id) || (m.Ack? && m.stream == id)
    ensures AckedIn(wire + [m], id)
  {
    if AckedIn(wire, id) {
      var i :| 0 <= i < |wire| && wire[i].Ack? && wire[i].stream == id;
      assert (wire + [m])[i] == wire[i];
    } else {
      assert (wire + [m])[|wire|] == m;
    }
  }

  /** At most one message per step: data of an acknowledged stream, or the acknowledgement itself. */
  lemma WireShape<P>(lib: Library<P>, s: State, e: Event)
    requires forall id :: id in s.streams ==> id in s.acks
    ensures var s' := Next(lib, s, e);
            if s'.wire == s.wire then s'.acks == s.acks
            else
              && |s'.wire| == |s.wire| + 1 && s'.wire == s.wire + [s'.wire[|s.wire|]]
              && var m := s'.wire[|s.wire|];
              && (m.Data? ==> m.stream in s.acks)
              && (forall id :: id in s'.acks ==> id in s.acks || (m.Ack? && m.stream == id))
  {
    hide Shoot, LiveFrames;
  }

  lemma DataFollowsAckStep<P>(lib: Library<P>, s: State, e: Event)
    requires IdsOk(s) && DataFollowsAck(s)
    ensures DataFollowsAck(Next(lib, s, e))
  {
    WireShape(lib, s, e);
    hide IdsOk, Next, AckedIn;
    var s' := Next(lib, s, e);
    if s'.wire != s.wire {
      var m := s'.wire[|s.wire|];
      forall id | id in s'.acks
        ensures AckedIn(s'.wire, id)
      {
        AckedInGrows(s.wire, m, id);
      }
      DataStillFollows(s.wire, m);
    }
  }

  lemma DataStillFollows(wire: seq<Message>, m: Message)
    requires forall i :: 0 <= i < |wire| && wire[i].Data? ==> AckedIn(wire[..i], wire[i].stream)
    requires m.Data? ==> AckedIn(wire, m.stream)
    ensures var longer := wire + [m];
            forall i :: 0 <= i < |longer| && longer[i].Data? ==> AckedIn(longer[..i], longer[i].stream)
  {
    hide AckedIn;
    var longer := wire + [m];
    forall i | 0 <= i < |longer| && longer[i].Data?
      ensures AckedIn(longer[..i], longer[i].stream)
    {
      if i < |wire| {
        assert longer[..i] == wire[..i] && longer[i] == wire[i];
      } else {
        assert longer[..i] == wire;
      }
    }
  }

  /** In every run the data of a stream comes after the acknowledgement that announces it. */
  lemma {:induction false} RunOrdersData<P>(lib: Library<P>, s: State, events: seq<Event>)
    requires Start(s) && Run(lib, s, events).opens < U32_MAX
    ensures DataFollowsAck(Run(lib, s, events))
  {
    if events != [] {
      var front := events[..|events| - 1];
      OpensOnlyGrow(lib, Run(lib, s, front), events[|events| - 1]);
      RunOrdersData(lib, s, front);
      RunKeepsInv(lib, s, front);
      DataFollowsAckStep(lib, Run(lib, s, front), events[|events| - 1]);
    }
  }
}
