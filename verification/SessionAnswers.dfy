/**
 That requests are answered (crates/client/client-core/src/session.rs): which responses a live
 connection accepts, and that each accepted one reaches the slot of its request.
 */
module SessionAnswers {
  import opened Base
  import opened Session
  import opened SessionSafety
  import Reconnects

  /** The answers there are to each command, besides a failure. */
  predicate Fits(c: Cmd, body: Body) {
    || body.Failure?
    || (c.CreateTerminal? && body.CreateOk?)
    || (c.OpenTerminal? && body.OpenOk? && body.terminal == c.terminal)
    || (c.ListTerminals? && body.ListOk?)
    || (c.ReadHistory? && body.HistoryOk? && body.terminal == c.terminal)
    || (c.GetServerConfig? && body.GetConfigOk?)
    || (c.SetServerConfig? && body.SetConfigOk?)
    || (c.KillTerminal? && body.KillOk?)
    || (c.KillActive? && body.KillOk?)
    || ((c.SendInput? || c.ResizeTerminal?) && (body.InputOk? || body.ResizeOk?))
  }

  lemma KindsFit(c: Cmd, body: Body)
    ensures Matches(TxnOf(c), body) <==> Fits(c, body)
  {
  }

  /** A run of one connection that is still alive, short enough for its ids, each request with a slot of its own. */
  ghost predicate IsOrdinary(emptied: set<Slot>, events: seq<Event>) {
    && Run(emptied, events).1
    && |Run(emptied, events).0.issued| < U32_MAX
    && FreshSlots(emptied, Run(emptied, events).0.issued)
  }

  /** A command that is framed is pending under the next id, as itself, whatever it was. */
  lemma CommandIsPending(emptied: set<Slot>, events: seq<Event>, c: Cmd)
    requires IsOrdinary(emptied, events)
    requires c.HasSlot() || (Run(emptied, events).0.handle.Some? && Run(emptied, events).0.handle.value.terminal == c.terminal)
    ensures var s, now := Run(emptied, events).0, Run(emptied, events + [Command(c)]);
            && now.1 && now.0.issued == s.issued + [c] && now.0.ids == s.ids + [|s.issued| + 1]
            && now.0.pending == s.pending[|s.issued| + 1 := TxnOf(c)] && now.0.emptied == s.emptied
  {
    RunIds(emptied, events);
    RunSnoc(emptied, events, Command(c));
    hide Run;
  }

  /** And a terminal command whose terminal is not open is not framed at all. */
  lemma OthersAreNotFramed(emptied: set<Slot>, events: seq<Event>, c: Cmd)
    requires Run(emptied, events).1 && !c.HasSlot()
    requires var s := Run(emptied, events).0; s.handle.None? || s.handle.value.terminal != c.terminal
    ensures Run(emptied, events + [Command(c)]) == Run(emptied, events)
  {
    RunSnoc(emptied, events, Command(c));
    hide Run;
  }

  /** A response is accepted if and only if its request is pending and it fits the command that made it. */
  lemma ResponseAcceptedIff(emptied: set<Slot>, events: seq<Event>, id: nat, body: Body)
    requires IsOrdinary(emptied, events)
    ensures var s := Run(emptied, events).0;
            Run(emptied, events + [Response(id, body)]).1
            <==> id in s.pending && 1 <= id <= |s.issued| && Fits(s.issued[id - 1], body)
  {
    RunKeepsInv(emptied, events);
    RunSnoc(emptied, events, Response(id, body));
    var s := Run(emptied, events).0;
    hide Run, AnswersOk, StreamsOk, ActiveOk, IdsOk;
    if id in s.pending {
      KindsFit(s.issued[id - 1], body);
    }
  }

  /** The slot of a request that waits for an answer. */
  ghost function SlotFor(s: State, id: nat): Option<Slot> {
    if id in s.pending && 1 <= id <= |s.issued| && s.issued[id - 1].HasSlot() then Some(s.issued[id - 1].slot) else None
  }

  /**
   Every accepted response to a request with a slot answers: the slot was full, it is emptied, and
   exactly this answer is given. A response to one without a slot answers nothing.
   */
  lemma AcceptedResponseAnswers(emptied: set<Slot>, events: seq<Event>, id: nat, body: Body)
    requires IsOrdinary(emptied, events) && Run(emptied, events + [Response(id, body)]).1
    ensures var s, now := Run(emptied, events).0, Run(emptied, events + [Response(id, body)]).0;
            && id in s.pending && now.pending == s.pending - {id}
            && match SlotFor(s, id)
               case Some(slot) =>
                 && slot !in s.emptied && now.emptied == s.emptied + {slot}
                 && now.answers == s.answers + [Answer(slot, id, body)]
               case None => now.emptied == s.emptied && now.answers == s.answers
  {
    RunKeepsInv(emptied, events);
    RunSnoc(emptied, events, Response(id, body));
    var s := Run(emptied, events).0;
    hide Run, AnswersOk, StreamsOk, ActiveOk, IdsOk;
    SlotOfCmd(s.issued[id - 1]);
  }

  /** A list of terminals, asked for and received, is the first answer of a connection. */
  lemma ListIsAnswered(slot: Slot)
    ensures var events := [Command(ListTerminals(slot)), Response(1, ListOk)];
            Run({}, events).1 && Run({}, events).0.answers == [Answer(slot, 1, ListOk)]
  {
    var c := Command(ListTerminals(slot));
    assert Run({}, []) == (Connected({}), true);
    assert [] + [c] == [c] && [c] + [Response(1, ListOk)] == [c, Response(1, ListOk)];
    CommandIsPending({}, [], ListTerminals(slot));
    hide Run;
    assert Run({}, [c]).0.issued == [] + [ListTerminals(slot)];
    RunSnoc({}, [], c);
    ResponseAcceptedIff({}, [c], 1, ListOk);
    AcceptedResponseAnswers({}, [c], 1, ListOk);
  }

  // ----- Over all connections

  /** On whatever connection: an accepted response empties the full slot of its request, with exactly this answer. */
  lemma AnswersReachTheirSlots(events: seq<Reconnects.Event>, id: nat, body: Body)
    requires var s := Reconnects.Run(events);
             && s.conn.Some? && |s.conn.value.issued| < U32_MAX && Reconnects.OwnSlots(s.submitted)
             && SlotFor(s.conn.value, id).Some?
    requires Reconnects.Next(Reconnects.Run(events), Reconnects.Respond(id, body)).conn.Some?
    ensures var s := Reconnects.Run(events);
            var now := Reconnects.Next(s, Reconnects.Respond(id, body));
            var slot := SlotFor(s.conn.value, id).value;
            && slot !in s.emptied && now.emptied == s.emptied + {slot}
            && Reconnects.AllAnswers(now) == Reconnects.AllAnswers(s) + [Answer(slot, id, body)]
            && now.conn.value.pending == s.conn.value.pending - {id}
  {
    var s := Reconnects.Run(events);
    Reconnects.RunKeepsInv(events);
    Reconnects.EveryConnectionIsSafe(events);
    hide Reconnects.Run, Reconnects.ConnOk, Reconnects.QueuesOk, AnswersOk, StreamsOk, ActiveOk, IdsOk;
    var c := s.conn.value;
    SlotOfCmd(c.issued[id - 1]);
    var next := Responded(c, id, body).0;
    assert next.answers == c.answers + [Answer(SlotFor(c, id).value, id, body)];
    assert s.log + next.answers == s.log + c.answers + [Answer(SlotFor(c, id).value, id, body)];
  }

  /** A pass of the connection loop that can send puts the oldest command not yet sent on the wire, and waits for its answer. */
  lemma NextCommandIsSent(events: seq<Reconnects.Event>)
    requires var s := Reconnects.Run(events); s.conn.Some? && s.pending + s.channel != []
    ensures var s := Reconnects.Run(events);
            var now := Reconnects.Next(s, Reconnects.Turn(true));
            && |s.sent| < |s.submitted|
            && now.sent == s.sent + [s.submitted[|s.sent|]] && now.submitted == s.submitted
            && now.conn.Some? && s.conn.value.nextId in now.conn.value.pending
            && now.conn.value.pending[s.conn.value.nextId] == TxnOf(s.submitted[|s.sent|])
  {
    Reconnects.RunKeepsInv(events);
    hide Reconnects.Run, Reconnects.ConnOk;
    var s := Reconnects.Run(events);
    assert s.submitted == s.sent + (s.pending + s.channel);
    assert s.submitted[|s.sent|] == (s.pending + s.channel)[0];
  }

  // ----- What leaves the open terminal alone

  /** Only opening, and killing the active terminal, lets go of it; every other command leaves terminal and streams as they are. */
  lemma OtherCommandsKeepTheStream(s: State, c: Cmd)
    requires !c.OpenTerminal? && (c.KillTerminal? && s.active.Some? ==> c.terminal != s.active.value.terminal)
    ensures Framed(s, c).active == s.active && Framed(s, c).handle == s.handle && Framed(s, c).streams == s.streams
    ensures Framed(s, c).told == s.told
  {
  }

  /** Only the acknowledgement of an open changes what is open, to what it says, from its end on. */
  lemma OnlyOpensOpen(s: State, id: nat, body: Body)
    requires Responded(s, id, body).1
    ensures var now := Responded(s, id, body).0;
            if body.OpenOk? then
              && now.active == now.handle == Some(Active(body.terminal, body.stream, body.endSeq))
              && now.streams == s.streams[body.stream := Stream(body.terminal, body.endSeq)]
              && now.told == s.told + [Opened(body.stream, body.terminal, body.endSeq)]
            else now.active == s.active && now.handle == s.handle && now.streams == s.streams && now.told == s.told
  {
  }
}
