/**
 The client's own check on a stream (crates/client/client-core/src/session.rs,
 `handle_stream_data_frame`) against what an open actually puts on the wire.
 */
module ClientStream {
  import opened Base
  import opened Frames
  import Attach
  import Session
  import opened Tracker

  /** What the client shows of a stream acknowledged at `last`; nothing if it breaks off. */
  function Accepted(last: nat, frames: seq<Frame>): Option<seq<Byte>>
    decreases |frames|
  {
    if frames == [] then Some([])
    else if frames[0].seqNo < last then None
    else
      match Accepted(frames[0].seqNo, frames[1..])
      case None => None
      case Some(rest) => Some(frames[0].bytes + rest)
  }

  lemma {:induction false} AcceptsGapless(history: seq<Byte>, frames: seq<Frame>, from: nat)
    requires Slices(history, frames, from) && Gapless(frames, from) && from <= |history|
    ensures from <= End(frames, from) <= |history|
    ensures Accepted(from, frames) == Some(history[from..End(frames, from)])
    decreases |frames|
  {
    SlicesEnd(history, frames, from);
    if frames == [] {
      assert history[from..from] == [];
    } else {
      var f := frames[0];
      AcceptsGapless(history, frames[1..], f.seqNo);
      assert End(frames, from) == End(frames[1..], f.seqNo);
      assert history[from..f.seqNo] + history[f.seqNo..End(frames, from)] == history[from..End(frames, from)];
    }
  }

  /**
   Subscribing before taking the snapshot lets frames at or before the acknowledged end reach
   the client, and the client does not skip them: it breaks off on one that ends before, and
   shows one that ends at the end a second time. It sees exactly the output past the end, once,
   if and only if there is no frame yet or nothing pushed before the snapshot was broadcast
   after the subscription.
   */
  lemma ClientIsExactWhenNothingOverlaps(history: seq<Byte>, frames: seq<Frame>, base: nat, end: nat)
    requires Slices(history, frames, base) && Gapless(frames, base) && NoStraddle(frames, end)
    requires base <= end <= |history|
    ensures Accepted(end, frames) == Some(BytesAfter(frames, end)) <==> frames == [] || base == end
  {
    BytesAfterCut(history, frames, base, end);
    if frames == [] {
    } else if base == end {
      AcceptsGapless(history, frames, base);
    } else {
      var f := frames[0];
      assert f.seqNo <= end;
      if f.seqNo == end {
        AcceptsGapless(history, frames[1..], end);
        assert Accepted(end, frames) == Some(f.bytes + history[end..End(frames[1..], end)]);
        assert End(frames, base) == End(frames[1..], end);
        assert |f.bytes + history[end..End(frames, base)]| > |BytesAfter(frames, end)|;
      }
    }
  }

  /** The same, of a stream in any run of the daemon that did not lag. */
  lemma OpenedClientSeesOutputOnce<P>(lib: Library<P>, s: Attach.State, events: seq<Attach.Event>, i: nat)
    requires Attach.Start(s) && Attach.Run(lib, s, events).opens < U32_MAX
    requires var now := Attach.Run(lib, s, events);
             i < |now.wire| && now.wire[i].Ack? && now.wire[i].stream !in now.lagged
    ensures var now := Attach.Run(lib, s, events);
            var id, t, shot := now.wire[i].stream, now.wire[i].terminal, now.wire[i].shot;
            && id in now.origins && t in now.terminals
            && var frames := Attach.OnWire(now.wire, id);
            var history := now.terminals[t].history;
            var last := Max(shot.end, End(frames, now.origins[id].base));
            && last <= |history|
            && (Accepted(shot.end, frames) == Some(history[shot.end..last])
                <==> frames == [] || now.origins[id].base == shot.end)
  {
    Attach.OpenIsExact(lib, s, events, i);
    hide Attach.Run;
    var now := Attach.Run(lib, s, events);
    var id, t, shot := now.wire[i].stream, now.wire[i].terminal, now.wire[i].shot;
    var history := now.terminals[t].history;
    var frames := Attach.OnWire(now.wire, id);
    BytesAfterCut(history, frames, now.origins[id].base, shot.end);
    ClientIsExactWhenNothingOverlaps(history, frames, now.origins[id].base, shot.end);
  }

  /**
   The overlap is real: one byte pushed before the subscription and broadcast after it is in
   the snapshot and in a frame, without any lag.
   */
  lemma OverlapHappens<P>(lib: Library<P>) returns (s: Attach.State, events: seq<Attach.Event>)
    ensures Attach.Start(s) && Attach.Run(lib, s, events).opens < U32_MAX
    ensures var now := Attach.Run(lib, s, events);
            && |now.wire| == 2 && now.wire[0].Ack? && now.wire[0].stream !in now.lagged
            && now.wire[0].shot.end == 1
            && now.wire[1] == Attach.Data(now.wire[0].stream, Frame(1, [0x61]))
  {
    var shot := Attach.Shoot(lib, PRINTED);
    ShotEnd(lib, PRINTED);
    s := Early(0, shot);
    events := [];
    StartsEarly(shot);
    assert Attach.Run(lib, s, []) == s;
    hide Attach.Run, Attach.Next, Early, Attaching, Flowing, Attach.Shoot;
    EarlySteps(lib);
    AttachingSteps(lib, shot);
    FlowingSteps(lib, shot);
    events := Extend(lib, s, events, Early(0, shot), Attach.Push(0, BYTE), Early(1, shot));
    events := Extend(lib, s, events, Early(1, shot), Attach.Subscribe(0), Early(2, shot));
    events := Extend(lib, s, events, Early(2, shot), Attach.TakeSnapshot, Early(3, shot));
    events := Extend(lib, s, events, Early(3, shot), Attach.SendAck(true), Attaching(4, shot));
    events := Extend(lib, s, events, Attaching(4, shot), Attach.Broadcast(0), Attaching(5, shot));
    events := Extend(lib, s, events, Attaching(5, shot), Attach.ForwardChunk(1), Flowing(6, shot));
    events := Extend(lib, s, events, Flowing(6, shot), Attach.ForwardFrame(1), Flowing(7, shot));
    events := Extend(lib, s, events, Flowing(7, shot), Attach.SendOutput, Flowing(8, shot));
    FlowingWire(shot);
  }

  const BYTE: seq<Byte> := [0x61]
  const PRINTED := Attach.Terminal(BYTE, BYTE, 1)

  /** The run, state by state: before the acknowledgement. */
  ghost function Early(k: nat, shot: Attach.Shot): Attach.State {
    var quiet := Attach.State(map[0 := Attach.Terminal([], [], 1)], map[], 1, None, [], [], map[], map[], {}, 0);
    var printed := quiet.(terminals := map[0 := PRINTED]);
    var opening := Attach.Opening(1, 0, Attach.Subscription([], false), if k < 3 then None else Some(shot));
    if k == 0 then quiet
    else if k == 1 then printed
    else printed.(nextStream := 2, opening := Some(opening), origins := map[1 := Attach.Origin(0, 0)], opens := 1)
  }

  /** The acknowledgement, then the broadcast. */
  ghost function Attaching(k: nat, shot: Attach.Shot): Attach.State {
    var queue := if k < 5 then [] else [Chunk(1, BYTE)];
    Attach.State(map[0 := if k < 5 then PRINTED else PRINTED.(unsent := [])],
                 map[1 := Attach.Attached(0, Attach.Subscription(queue, false), [], false)],
                 2, None, [], [Attach.Ack(1, 0, shot)], map[1 := Attach.Origin(0, 0)], map[1 := shot], {}, 1)
  }

  /** The frame, on its way to the wire. */
  ghost function Flowing(k: nat, shot: Attach.Shot): Attach.State {
    var f := Frame(1, BYTE);
    Attach.State(map[0 := PRINTED.(unsent := [])],
                 map[1 := Attach.Attached(0, Attach.Subscription([], false), if k < 7 then [f] else [], false)],
                 2, None, if k == 7 then [Attach.Outbound(1, 0, f)] else [],
                 if k < 8 then [Attach.Ack(1, 0, shot)] else [Attach.Ack(1, 0, shot), Attach.Data(1, f)],
                 map[1 := Attach.Origin(0, 0)], map[1 := shot], {}, 1)
  }

  lemma StartsEarly(shot: Attach.Shot)
    ensures Attach.Start(Early(0, shot))
  {
  }

  lemma FlowingWire(shot: Attach.Shot)
    ensures var now := Flowing(8, shot);
            now.opens == 1 && now.lagged == {} && now.wire == [Attach.Ack(1, 0, shot), Attach.Data(1, Frame(1, [0x61]))]
  {
  }

  lemma EarlySteps<P>(lib: Library<P>)
    ensures var shot := Attach.Shoot(lib, PRINTED);
            && Attach.Next(lib, Early(0, shot), Attach.Push(0, BYTE)) == Early(1, shot)
            && Attach.Next(lib, Early(1, shot), Attach.Subscribe(0)) == Early(2, shot)
            && Attach.Next(lib, Early(2, shot), Attach.TakeSnapshot) == Early(3, shot)
  {
    var shot := Attach.Shoot(lib, PRINTED);
    hide Attach.Shoot;
    assert [] + BYTE == BYTE;
    assert Attach.DoPush(Early(0, shot), 0, BYTE) == Early(1, shot);
    assert Attach.DoSubscribe(Early(1, shot), 0) == Early(2, shot);
    assert Attach.DoSnapshot(lib, Early(2, shot)) == Early(3, shot);
  }

  lemma AttachingSteps<P>(lib: Library<P>, shot: Attach.Shot)
    ensures Attach.Next(lib, Early(3, shot), Attach.SendAck(true)) == Attaching(4, shot)
    ensures Attach.Next(lib, Attaching(4, shot), Attach.Broadcast(0)) == Attaching(5, shot)
  {
    BroadcastExample(Attaching(4, shot), Chunk(1, BYTE), Attaching(5, shot));
    assert Attach.DoAck(Early(3, shot), true) == Attaching(4, shot);
  }

  lemma FlowingSteps<P>(lib: Library<P>, shot: Attach.Shot)
    ensures Attach.Next(lib, Attaching(5, shot), Attach.ForwardChunk(1)) == Flowing(6, shot)
    ensures Attach.Next(lib, Flowing(6, shot), Attach.ForwardFrame(1)) == Flowing(7, shot)
    ensures Attach.Next(lib, Flowing(7, shot), Attach.SendOutput) == Flowing(8, shot)
  {
    ChunkIsForwarded(shot);
    FrameIsQueued(shot);
    FrameIsSent(shot);
    hide Attaching, Flowing, Attach.DoForwardChunk, Attach.DoForwardFrame, Attach.DoSendOutput;
  }

  lemma ChunkIsForwarded(shot: Attach.Shot)
    ensures Attach.DoForwardChunk(Attaching(5, shot), 1) == Flowing(6, shot)
  {
    OneFrame(BYTE);
    hide LiveFrames;
    assert [Chunk(1, BYTE)][1..] == [];
  }

  lemma FrameIsQueued(shot: Attach.Shot)
    ensures Attach.DoForwardFrame(Flowing(6, shot), 1) == Flowing(7, shot)
  {
    assert [Frame(1, BYTE)][1..] == [];
  }

  lemma FrameIsSent(shot: Attach.Shot)
    ensures Attach.DoSendOutput(Flowing(7, shot)) == Flowing(8, shot)
  {
    assert Flowing(7, shot).outbound[1..] == [];
  }

  lemma ShotEnd<P>(lib: Library<P>, term: Attach.Terminal)
    ensures Attach.Shoot(lib, term).end == |term.history|
  {
  }

  lemma OneFrame(byte: seq<Byte>)
    requires |byte| == 1
    ensures LiveFrames(Chunk(1, byte)) == Some([Frame(1, byte)])
  {
    CutStep(0, byte);
    assert byte[..1] == byte && byte[1..] == [];
    assert Cut(1, byte[1..]) == [];
    assert Cut(0, byte) == [Frame(1, byte)];
  }

  lemma BroadcastExample(s: Attach.State, c: Chunk, s': Attach.State)
    requires s.terminals == map[0 := Attach.Terminal(c.bytes, c.bytes, 1)] && c.bytes != [] && c.seqAtEnd == |c.bytes|
    requires s.streams == map[1 := Attach.Attached(0, Attach.Subscription([], false), [], false)] && s.opening.None?
    requires s.lagged == {}
    requires s' == s.(terminals := map[0 := Attach.Terminal(c.bytes, [], 1)],
                      streams := map[1 := Attach.Attached(0, Attach.Subscription([c], false), [], false)])
    ensures Attach.DoBroadcast(s, 0) == s'
  {
    var after := Attach.DoBroadcast(s, 0);
    assert [] + [c] == [c];
    assert after.streams == s'.streams;
    assert forall id :: id in after.streams ==> !after.streams[id].sub.lagged;
    assert after.lagged == s.lagged + {} + {};
  }

  /** One more event at the end of a run. */
  lemma Extend<P>(lib: Library<P>, s: Attach.State, events: seq<Attach.Event>, now: Attach.State,
                  e: Attach.Event, after: Attach.State) returns (more: seq<Attach.Event>)
    requires Attach.Run(lib, s, events) == now && Attach.Next(lib, now, e) == after
    ensures Attach.Run(lib, s, more) == after
  {
    more := events + [e];
    assert more[..|more| - 1] == events;
    hide Attach.Next;
  }

  // ----- The same check in the session's own handler

  /** What the session shows of the frames of a stream, one after the other; nothing if the connection ends. */
  ghost function Shown(s: Session.State, stream: Session.StreamId, frames: seq<Frame>): Option<seq<Byte>>
    decreases |frames|
  {
    if frames == [] then Some([])
    else
      var (next, ok) := Session.Received(s, stream, frames[0].seqNo, false);
      if !ok then None
      else
        match Shown(next, stream, frames[1..])
        case None => None
        case Some(rest) => Some((if |next.told| > |s.told| then frames[0].bytes else []) + rest)
  }

  /** The stream belongs to the active terminal and has been shown up to `last`. */
  ghost predicate IsShowing(s: Session.State, stream: Session.StreamId, last: nat) {
    && s.active.Some? && s.handle == s.active
    && s.active.value.stream == stream && s.active.value.lastSeq == last
    && stream in s.streams && s.streams[stream] == Session.Stream(s.active.value.terminal, last)
  }

  lemma {:induction false} ShownIsAccepted(s: Session.State, stream: Session.StreamId, last: nat, frames: seq<Frame>)
    requires IsShowing(s, stream, last)
    ensures Shown(s, stream, frames) == Accepted(last, frames)
    decreases |frames|
  {
    if frames != [] && frames[0].seqNo >= last {
      ShownIsAccepted(Session.Received(s, stream, frames[0].seqNo, false).0, stream, frames[0].seqNo, frames[1..]);
    }
  }

  /**
   A session that accepts an acknowledgement and is then sent the frames of its stream shows the
   output past the snapshot exactly once under the same condition, in any run of the daemon.
   */
  lemma SessionSeesOutputOnce<P>(lib: Library<P>, s: Attach.State, events: seq<Attach.Event>, i: nat,
                                 client: Session.State, request: nat)
    requires Attach.Start(s) && Attach.Run(lib, s, events).opens < U32_MAX
    requires var now := Attach.Run(lib, s, events);
             i < |now.wire| && now.wire[i].Ack? && now.wire[i].stream !in now.lagged
    requires var ack := Attach.Run(lib, s, events).wire[i];
             Session.Responded(client, request, Session.OpenOk(ack.stream, ack.terminal, ack.shot.end)).1
    ensures var now := Attach.Run(lib, s, events);
            var id, t, shot := now.wire[i].stream, now.wire[i].terminal, now.wire[i].shot;
            && id in now.origins && t in now.terminals
            && var frames := Attach.OnWire(now.wire, id);
            var history := now.terminals[t].history;
            var last := Max(shot.end, End(frames, now.origins[id].base));
            var opened_ := Session.Responded(client, request, Session.OpenOk(id, t, shot.end)).0;
            && last <= |history|
            && (Shown(opened_, id, frames) == Some(history[shot.end..last])
                <==> frames == [] || now.origins[id].base == shot.end)
  {
    OpenedClientSeesOutputOnce(lib, s, events, i);
    hide Attach.Run, Accepted;
    var now := Attach.Run(lib, s, events);
    var ack := now.wire[i];
    OpenedIsShowing(client, request, ack.stream, ack.terminal, ack.shot.end);
    hide Session.Responded;
    ShownIsAccepted(Session.Responded(client, request, Session.OpenOk(ack.stream, ack.terminal, ack.shot.end)).0,
                    ack.stream, ack.shot.end, Attach.OnWire(now.wire, ack.stream));
  }

  lemma OpenedIsShowing(s: Session.State, request: nat, stream: Session.StreamId, terminal: Session.TerminalId, end: nat)
    requires Session.Responded(s, request, Session.OpenOk(stream, terminal, end)).1
    ensures IsShowing(Session.Responded(s, request, Session.OpenOk(stream, terminal, end)).0, stream, end)
  {
  }
}
