/**
 The client over all its connections (crates/client/client-core/src/session.rs): session
 commands wait in a channel and a queue that outlive a connection, each with a reply slot of its
 own; the request table does not outlive it.
 */
module Reconnects {
  import opened Base
  import opened Session
  import SessionSafety

  /**
   `conn` is the live connection, if there is one. The fields from `submitted` on only record what
   has happened: what was put on the wire, now and before this connection, what earlier connections
   answered, and what this one began with and has seen.
   */
  datatype Client = Client(
    channel: seq<Cmd>,
    pending: seq<Cmd>,
    conn: Option<State>,
    emptied: set<Slot>,
    submitted: seq<Cmd>,
    sent: seq<Cmd>,
    sentBefore: nat,
    log: seq<Answer>,
    base: set<Slot>,
    since: seq<SessionSafety.Event>)

  /**
   `Turn` is a pass of the connection loop that finds a session command, `Key` one that finds a
   terminal command; `GiveUp` is an end that fails what is pending, in the order the table gives
   it, and `BreakOff` one that just drops it.
   */
  datatype Event =
    | Submit(cmd: Cmd)
    | Connect
    | Turn(sendOk: bool)
    | Key(cmd: Cmd, sendOk: bool)
    | Respond(id: nat, body: Body)
    | Receive(stream: StreamId, seqNo: nat, hasOffset: bool)
    | GiveUp(order: seq<nat>)
    | BreakOff

  // ----- Steps

  ghost function Ended(s: Client, last: State): Client {
    s.(conn := None, emptied := last.emptied, log := s.log + last.answers)
  }

  ghost function Moved(s: Client, next: State, e: SessionSafety.Event): Client {
    s.(conn := Some(next), emptied := next.emptied, since := s.since + [e])
  }

  /** The front command is framed and sent; when that fails it stays, and the connection ends. */
  ghost function Send(s: Client, sendOk: bool): Client
    requires s.conn.Some? && s.pending != []
  {
    var framed := Framed(s.conn.value, s.pending[0]);
    if sendOk then
      Moved(s, framed, SessionSafety.Command(s.pending[0])).(pending := s.pending[1..], sent := s.sent + [s.pending[0]])
    else Ended(s, framed)
  }

  ghost function Inbound(s: Client, e: SessionSafety.Event): Client
    requires s.conn.Some?
  {
    var (next, ok) := SessionSafety.Next(s.conn.value, e);
    if ok then Moved(s, next, e) else Ended(s, next)
  }

  ghost function Next(s: Client, e: Event): Client {
    match e
    case Submit(c) => if c.HasSlot() then s.(channel := s.channel + [c], submitted := s.submitted + [c]) else s
    case Connect =>
      if s.conn.Some? then s
      else s.(conn := Some(Connected(s.emptied)), sentBefore := |s.sent|, base := s.emptied, since := [])
    case Turn(sendOk) =>
      if s.conn.None? then s
      else if s.pending != [] then Send(s, sendOk)
      else if s.channel != [] then Send(s.(channel := s.channel[1..], pending := [s.channel[0]]), sendOk)
      else s
    case Key(c, sendOk) =>
      if s.conn.None? || c.HasSlot() || !CanFrame(s.conn.value.handle, c) then s
      else if sendOk then Moved(s, Framed(s.conn.value, c), SessionSafety.Command(c))
      else Ended(s, Framed(s.conn.value, c))
    case Respond(id, body) => if s.conn.None? then s else Inbound(s, SessionSafety.Response(id, body))
    case Receive(stream, seqNo, hasOffset) =>
      if s.conn.None? then s else Inbound(s, SessionSafety.Data(stream, seqNo, hasOffset))
    case GiveUp(order) =>
      if s.conn.Some? && Enumerates(order, s.conn.value.pending) then Ended(s, FailedAll(s.conn.value, order)) else s
    case BreakOff => if s.conn.None? then s else Ended(s, s.conn.value)
  }

  const START := Client([], [], None, {}, [], [], 0, [], {}, [])

  ghost function Run(events: seq<Event>): Client {
    if events == [] then START else Next(Run(events[..|events| - 1]), events[|events| - 1])
  }

  // ----- What holds throughout

  /** Every answer given so far, on any connection. */
  ghost function AllAnswers(s: Client): seq<Answer> {
    s.log + (if s.conn.Some? then s.conn.value.answers else [])
  }

  /** Every submitted command has a slot of its own. */
  ghost predicate OwnSlots(cmds: seq<Cmd>) {
    && (forall i :: 0 <= i < |cmds| ==> cmds[i].HasSlot())
    && (forall i, j :: 0 <= i < j < |cmds| ==> cmds[i].slot != cmds[j].slot)
  }

  /** The slots that have been emptied are those of the answers, and each was emptied once. */
  ghost predicate SlotsOk(answers: seq<Answer>, emptied: set<Slot>) {
    && (forall i, j :: 0 <= i < j < |answers| ==> answers[i].slot != answers[j].slot)
    && emptied == SessionSafety.AnsweredSlots(answers)
  }

  ghost predicate IsOf(txn: Txn, cmds: seq<Cmd>) {
    exists k :: 0 <= k < |cmds| && TxnOf(cmds[k]) == txn
  }

  /** The answer fits a command that was sent with its slot. */
  ghost predicate Fits(cmds: seq<Cmd>, a: Answer) {
    exists txn :: IsOf(txn, cmds) && txn.SlotOf() == Some(a.slot) && Matches(txn, a.body)
  }

  ghost predicate AllFit(cmds: seq<Cmd>, answers: seq<Answer>) {
    forall i :: 0 <= i < |answers| ==> Fits(cmds, answers[i])
  }

  ghost predicate TableOk(sent: seq<Cmd>, c: State) {
    forall id :: id in c.pending && c.pending[id].SlotOf().Some? ==> IsOf(c.pending[id], sent)
  }

  ghost predicate ConnOk(log: seq<Answer>, sent: seq<Cmd>, c: State) {
    SlotsOk(log + c.answers, c.emptied) && AllFit(sent, log + c.answers) && TableOk(sent, c)
  }

  ghost predicate QueuesOk(s: Client) {
    && s.sent + s.pending + s.channel == s.submitted
    && |s.pending| <= 1
    && forall i :: 0 <= i < |s.submitted| ==> s.submitted[i].HasSlot()
  }

  ghost predicate Inv(s: Client) {
    && QueuesOk(s)
    && if s.conn.Some? then s.conn.value.emptied == s.emptied && ConnOk(s.log, s.sent, s.conn.value)
       else SlotsOk(s.log, s.emptied) && AllFit(s.sent, s.log)
  }

  // ----- Steps of a connection

  lemma MoreSent(cmds: seq<Cmd>, more: seq<Cmd>, answers: seq<Answer>, c: State)
    requires cmds <= more
    ensures AllFit(cmds, answers) ==> AllFit(more, answers)
    ensures TableOk(cmds, c) ==> TableOk(more, c)
  {
    forall txn | IsOf(txn, cmds)
      ensures IsOf(txn, more)
    {
      var k :| 0 <= k < |cmds| && TxnOf(cmds[k]) == txn;
      assert more[k] == cmds[k];
    }
    hide IsOf;
    if AllFit(cmds, answers) {
      forall i | 0 <= i < |answers|
        ensures Fits(more, answers[i])
      {
        assert Fits(cmds, answers[i]);
      }
    }
  }

  lemma FramedOk(log: seq<Answer>, sent: seq<Cmd>, more: seq<Cmd>, c: State, cmd: Cmd)
    requires ConnOk(log, sent, c) && sent <= more
    requires cmd.HasSlot() ==> IsOf(TxnOf(cmd), more)
    ensures ConnOk(log, more, Framed(c, cmd))
  {
    MoreSent(sent, more, log + c.answers, c);
    SessionSafety.SlotOfCmd(cmd);
    hide IsOf, AllFit, SlotsOk, TxnOf;
  }

  lemma AnsweredOk(log: seq<Answer>, sent: seq<Cmd>, c: State, slot: Option<Slot>, id: nat, body: Body)
    requires ConnOk(log, sent, c)
    requires slot.Some? ==> Fits(sent, Answer(slot.value, id, body))
    ensures ConnOk(log, sent, Answered(c, slot, id, body))
  {
    var c' := Answered(c, slot, id, body);
    if c' != c {
      var a := Answer(slot.value, id, body);
      var all := log + c.answers;
      assert log + c'.answers == all + [a];
      SessionSafety.AnsweredSnoc(all, a);
      assert forall i :: 0 <= i < |all| ==> all[i].slot in SessionSafety.AnsweredSlots(all);
      hide Fits, IsOf, SessionSafety.AnsweredSlots;
      assert SlotsOk(all + [a], c'.emptied);
    }
  }

  lemma RespondedOk(log: seq<Answer>, sent: seq<Cmd>, c: State, id: nat, body: Body)
    requires ConnOk(log, sent, c)
    ensures ConnOk(log, sent, Responded(c, id, body).0)
  {
    if id in c.pending {
      var txn := c.pending[id];
      var slot := txn.SlotOf();
      var removed := Removed(c, id);
      assert TableOk(sent, removed);
      if Matches(txn, body) {
        if slot.Some? {
          assert Fits(sent, Answer(slot.value, id, body));
        }
        hide Fits, IsOf, SlotsOk, AllFit, TableOk, Matches;
        AnsweredOk(log, sent, removed, slot, id, body);
        TableCarries(log, sent, Answered(removed, slot, id, body), Responded(c, id, body).0);
      } else if Responded(c, id, body).0 != c {
        hide Fits, IsOf, SlotsOk, AllFit, TableOk;
        TableCarries(log, sent, removed, Responded(c, id, body).0);
      }
    }
  }

  lemma TableCarries(log: seq<Answer>, sent: seq<Cmd>, a: State, b: State)
    requires ConnOk(log, sent, a)
    requires a.pending == b.pending && a.answers == b.answers && a.emptied == b.emptied
    ensures ConnOk(log, sent, b)
  {
    hide IsOf, SlotsOk, AllFit;
  }

  lemma {:induction false} FailedOk(log: seq<Answer>, sent: seq<Cmd>, c: State, order: seq<nat>)
    requires ConnOk(log, sent, c)
    ensures ConnOk(log, sent, Failed(c, order))
  {
    if order != [] {
      var before := Failed(c, order[..|order| - 1]);
      FailedOk(log, sent, c, order[..|order| - 1]);
      var id := order[|order| - 1];
      if id in before.pending {
        var slot := before.pending[id].SlotOf();
        if slot.Some? {
          assert Fits(sent, Answer(slot.value, id, Failure));
        }
        assert TableOk(sent, Removed(before, id));
        hide Fits, IsOf, SlotsOk, AllFit, TableOk;
        AnsweredOk(log, sent, Removed(before, id), slot, id, Failure);
      }
    }
  }

  lemma FailedAllOk(log: seq<Answer>, sent: seq<Cmd>, c: State, order: seq<nat>)
    requires ConnOk(log, sent, c)
    ensures ConnOk(log, sent, FailedAll(c, order))
  {
    FailedOk(log, sent, c, order);
    hide Failed, IsOf, SlotsOk, AllFit;
  }

  lemma SendQueues(s: Client, sendOk: bool)
    requires QueuesOk(s) && s.conn.Some? && s.pending != []
    ensures QueuesOk(Send(s, sendOk))
  {
    assert s.pending == [s.pending[0]] && s.pending[1..] == [];
    assert s.sent + [s.pending[0]] + [] + s.channel == s.sent + s.pending + s.channel;
  }

  lemma TakeQueues(s: Client)
    requires QueuesOk(s) && s.pending == [] && s.channel != []
    ensures QueuesOk(s.(channel := s.channel[1..], pending := [s.channel[0]]))
  {
    assert s.channel == [s.channel[0]] + s.channel[1..];
    assert s.sent + [s.channel[0]] + s.channel[1..] == s.sent + [] + s.channel;
  }

  lemma SendOk(s: Client, sendOk: bool)
    requires Inv(s) && s.conn.Some? && s.pending != []
    ensures Inv(Send(s, sendOk))
  {
    SendQueues(s, sendOk);
    var c, cmd := s.conn.value, s.pending[0];
    var more := s.sent + [cmd];
    assert more[|s.sent|] == cmd;
    assert IsOf(TxnOf(cmd), more);
    FramedOk(s.log, s.sent, more, c, cmd);
    hide IsOf, SlotsOk, AllFit, TableOk, Framed, QueuesOk, TxnOf;
    if !sendOk {
      UnsentOk(s.log, s.sent, c, cmd);
    }
  }

  /** Framing alone answers nothing. */
  lemma UnsentOk(log: seq<Answer>, sent: seq<Cmd>, c: State, cmd: Cmd)
    requires ConnOk(log, sent, c)
    ensures SlotsOk(log + Framed(c, cmd).answers, Framed(c, cmd).emptied) && AllFit(sent, log + Framed(c, cmd).answers)
  {
    hide SlotsOk, AllFit, TableOk;
  }

  lemma StepKeepsInv(s: Client, e: Event)
    requires Inv(s)
    ensures Inv(Next(s, e))
  {
    match e
    case Submit(c) =>
      hide ConnOk, SlotsOk, AllFit;
      if c.HasSlot() {
        assert s.sent + s.pending + (s.channel + [c]) == s.sent + s.pending + s.channel + [c];
      }
    case Connect =>
      hide SlotsOk, AllFit, QueuesOk;
      assert s.log + [] == s.log;
    case Turn(sendOk) =>
      hide ConnOk, SlotsOk, AllFit;
      if s.conn.Some? {
        if s.pending != [] {
          SendOk(s, sendOk);
        } else if s.channel != [] {
          TakeQueues(s);
          SendOk(s.(channel := s.channel[1..], pending := [s.channel[0]]), sendOk);
        }
      }
    case Key(c, sendOk) =>
      if s.conn.Some? && !c.HasSlot() {
        FramedOk(s.log, s.sent, s.sent, s.conn.value, c);
        hide SlotsOk, AllFit, TableOk, Framed, QueuesOk;
      }
    case Respond(id, body) =>
      if s.conn.Some? {
        RespondedOk(s.log, s.sent, s.conn.value, id, body);
        hide SlotsOk, AllFit, TableOk, Responded, QueuesOk;
      }
    case Receive(stream, seqNo, hasOffset) =>
      if s.conn.Some? {
        TableCarries(s.log, s.sent, s.conn.value, Received(s.conn.value, stream, seqNo, hasOffset).0);
        hide SlotsOk, AllFit, TableOk, Received, QueuesOk;
      }
    case GiveUp(order) =>
      if s.conn.Some? {
        FailedAllOk(s.log, s.sent, s.conn.value, order);
        hide SlotsOk, AllFit, TableOk, FailedAll, QueuesOk, Enumerates;
      }
    case BreakOff =>
      hide SlotsOk, AllFit, TableOk, QueuesOk;
  }

  lemma {:induction false} RunKeepsInv(events: seq<Event>)
    ensures Inv(Run(events))
  {
    if events != [] {
      RunKeepsInv(events[..|events| - 1]);
      StepKeepsInv(Run(events[..|events| - 1]), events[|events| - 1]);
    }
  }

  // ----- What the callers are promised

  /**
   Over all connections, whatever breaks them off: no slot is answered twice, every answer fits a
   command that was sent with that slot, and the commands go on the wire in the order they were
   submitted, each at most once, the one kept for a retry first.
   */
  lemma SlotsAreAnsweredOnce(events: seq<Event>)
    ensures var s := Run(events);
            && (forall i, j :: 0 <= i < j < |AllAnswers(s)| ==> AllAnswers(s)[i].slot != AllAnswers(s)[j].slot)
            && (forall i :: 0 <= i < |AllAnswers(s)| ==> Fits(s.sent, AllAnswers(s)[i]))
            && s.emptied == SessionSafety.AnsweredSlots(AllAnswers(s))
            && s.sent + s.pending + s.channel == s.submitted && |s.pending| <= 1
  {
    RunKeepsInv(events);
    var s := Run(events);
    hide Run, Fits;
    assert s.log + [] == s.log;
  }

  lemma EmptiedWasSent(s: Client, w: Slot) returns (k: nat)
    requires Inv(s) && w in s.emptied
    ensures k < |s.sent| && s.sent[k].HasSlot() && s.sent[k].slot == w && s.submitted[k] == s.sent[k]
  {
    var all := AllAnswers(s);
    assert s.log + [] == s.log;
    var i :| 0 <= i < |all| && all[i].slot == w;
    assert Fits(s.sent, all[i]);
    var txn :| IsOf(txn, s.sent) && txn.SlotOf() == Some(w);
    k :| 0 <= k < |s.sent| && TxnOf(s.sent[k]) == txn;
    SessionSafety.SlotOfCmd(s.sent[k]);
  }

  /** A command kept for a retry, or not yet taken, has a slot that is still unanswered. */
  lemma RetryIsUnanswered(events: seq<Event>)
    requires OwnSlots(Run(events).submitted)
    ensures var s := Run(events);
            && (forall i :: 0 <= i < |s.pending| ==> s.pending[i].HasSlot() && s.pending[i].slot !in s.emptied)
            && (forall i :: 0 <= i < |s.channel| ==> s.channel[i].HasSlot() && s.channel[i].slot !in s.emptied)
  {
    RunKeepsInv(events);
    var s := Run(events);
    hide Run;
    forall n | |s.sent| <= n < |s.submitted|
      ensures s.submitted[n].HasSlot() && s.submitted[n].slot !in s.emptied
    {
      NotSentIsUnanswered(s, n);
    }
    forall i | 0 <= i < |s.pending|
      ensures s.pending[i] == s.submitted[|s.sent| + i]
    {
    }
    forall i | 0 <= i < |s.channel|
      ensures s.channel[i] == s.submitted[|s.sent| + |s.pending| + i]
    {
    }
  }

  lemma NotSentIsUnanswered(s: Client, n: nat)
    requires Inv(s) && OwnSlots(s.submitted) && |s.sent| <= n < |s.submitted|
    ensures s.submitted[n].HasSlot() && s.submitted[n].slot !in s.emptied
  {
    hide ConnOk, SlotsOk, AllFit;
    if s.submitted[n].slot in s.emptied {
      var k := EmptiedWasSent(s, s.submitted[n].slot);
    }
  }

  /** Giving up fails every request the connection had pending. */
  lemma GivingUpFailsAll(s: Client, order: seq<nat>, id: nat)
    requires s.conn.Some? && Enumerates(order, s.conn.value.pending)
    requires id in s.conn.value.pending && s.conn.value.pending[id].SlotOf().Some?
    ensures s.conn.value.pending[id].SlotOf().value in Next(s, GiveUp(order)).emptied
  {
    var i :| 0 <= i < |order| && order[i] == id;
    FailedOne(s.conn.value, order, i, |order|);
    assert order[..|order|] == order;
  }

  lemma {:induction false} FailedOne(c: State, order: seq<nat>, i: nat, n: nat)
    requires i < n <= |order| && order[i] in c.pending && c.pending[order[i]].SlotOf().Some?
    requires forall a, b :: 0 <= a < b < |order| ==> order[a] != order[b]
    ensures c.pending[order[i]].SlotOf().value in Failed(c, order[..n]).emptied
  {
    assert order[..n][..n - 1] == order[..n - 1];
    if i < n - 1 {
      FailedOne(c, order, i, n - 1);
    } else {
      StillThere(c, order, n - 1, order[i]);
    }
  }

  lemma {:induction false} StillThere(c: State, order: seq<nat>, n: nat, id: nat)
    requires n <= |order| && id in c.pending && id !in order[..n]
    ensures id in Failed(c, order[..n]).pending && Failed(c, order[..n]).pending[id] == c.pending[id]
  {
    if n > 0 {
      assert order[..n][..n - 1] == order[..n - 1];
      assert order[n - 1] in order[..n];
      StillThere(c, order, n - 1, id);
    }
  }

  // ----- A request whose connection is gone

  /** The slot belongs to a request that was sent and that the live connection, if any, does not have pending. */
  ghost predicate IsSettled(s: Client, w: Slot) {
    && (exists k :: 0 <= k < |s.sent| && s.sent[k].HasSlot() && s.sent[k].slot == w)
    && (s.conn.Some? ==> forall id :: id in s.conn.value.pending ==> s.conn.value.pending[id].SlotOf() != Some(w))
  }

  ghost predicate Apart(c: State, w: Slot) {
    forall id :: id in c.pending ==> c.pending[id].SlotOf() != Some(w)
  }

  lemma {:induction false} FailedApart(c: State, order: seq<nat>, w: Slot)
    requires Apart(c, w)
    ensures Apart(Failed(c, order), w) && (w in Failed(c, order).emptied <==> w in c.emptied)
  {
    if order != [] {
      FailedApart(c, order[..|order| - 1], w);
    }
  }

  lemma RespondedApart(c: State, id: nat, body: Body, w: Slot)
    requires Apart(c, w)
    ensures var c' := Responded(c, id, body).0; Apart(c', w) && (w in c'.emptied <==> w in c.emptied)
  {
  }

  lemma FramedApart(c: State, cmd: Cmd, w: Slot)
    requires Apart(c, w) && (cmd.HasSlot() ==> cmd.slot != w)
    ensures Apart(Framed(c, cmd), w) && Framed(c, cmd).emptied == c.emptied
  {
    SessionSafety.SlotOfCmd(cmd);
    hide TxnOf;
  }

  lemma SendSettled(s: Client, sendOk: bool, w: Slot)
    requires IsSettled(s, w) && s.conn.Some? && s.conn.value.emptied == s.emptied && s.pending != []
    requires s.pending[0].HasSlot() && s.pending[0].slot != w
    ensures IsSettled(Send(s, sendOk), w) && (w in Send(s, sendOk).emptied <==> w in s.emptied)
  {
    FramedApart(s.conn.value, s.pending[0], w);
    var k :| 0 <= k < |s.sent| && s.sent[k].HasSlot() && s.sent[k].slot == w;
    hide Framed;
    assert (s.sent + [s.pending[0]])[k] == s.sent[k];
  }

  /** Nothing more happens to such a slot: if it was not answered before, it never is. */
  lemma StepKeepsSettled(s: Client, e: Event, w: Slot)
    requires Inv(s) && IsSettled(s, w) && OwnSlots(s.submitted)
    ensures IsSettled(Next(s, e), w) && (w in Next(s, e).emptied <==> w in s.emptied)
  {
    hide ConnOk, SlotsOk, AllFit, Framed, Responded, Failed;
    match e
    case Submit(c) =>
    case Connect =>
    case Turn(sendOk) =>
      if s.conn.Some? && s.pending + s.channel != [] {
        var front := (s.pending + s.channel)[0];
        OthersDiffer(s, w);
        if s.pending != [] {
          SendSettled(s, sendOk, w);
        } else {
          SendSettled(s.(channel := s.channel[1..], pending := [s.channel[0]]), sendOk, w);
        }
      }
    case Key(c, sendOk) =>
      if s.conn.Some? && !c.HasSlot() {
        FramedApart(s.conn.value, c, w);
      }
    case Respond(id, body) =>
      if s.conn.Some? {
        RespondedApart(s.conn.value, id, body, w);
      }
    case Receive(stream, seqNo, hasOffset) =>
    case GiveUp(order) =>
      if s.conn.Some? {
        FailedApart(s.conn.value, order, w);
      }
    case BreakOff =>
  }

  lemma OthersDiffer(s: Client, w: Slot)
    requires QueuesOk(s) && IsSettled(s, w) && OwnSlots(s.submitted) && s.pending + s.channel != []
    ensures var front := (s.pending + s.channel)[0]; front.HasSlot() && front.slot != w
  {
    var k :| 0 <= k < |s.sent| && s.sent[k].HasSlot() && s.sent[k].slot == w;
    assert s.submitted == s.sent + (s.pending + s.channel);
    assert s.submitted[k] == s.sent[k] && s.submitted[|s.sent|] == (s.pending + s.channel)[0];
  }

  /**
   A request that was sent and that no live connection has pending keeps its slot as it is for
   ever: one whose connection broke off without failing it is never answered later.
   */
  lemma {:induction false} AbandonedStaysUnanswered(events: seq<Event>, more: seq<Event>, w: Slot)
    requires IsSettled(Run(events), w) && OwnSlots(Run(events + more).submitted)
    ensures IsSettled(Run(events + more), w)
    ensures w in Run(events + more).emptied <==> w in Run(events).emptied
    decreases |more|
  {
    if more == [] {
      assert events + more == events;
    } else {
      var front, e := more[..|more| - 1], more[|more| - 1];
      assert (events + more)[..|events + more| - 1] == events + front;
      var s := Run(events + front);
      RunKeepsInv(events + front);
      SubmittedGrows(s, e);
      assert s.submitted == Run(events + more).submitted[..|s.submitted|];
      AbandonedStaysUnanswered(events, front, w);
      StepKeepsSettled(s, e, w);
    }
  }

  lemma SubmittedGrows(s: Client, e: Event)
    ensures s.submitted <= Next(s, e).submitted
  {
  }

  // ----- Each connection is one of those of the session model

  function WithSlots(cmds: seq<Cmd>): seq<Cmd> {
    if cmds == [] then []
    else
      var last := cmds[|cmds| - 1];
      WithSlots(cmds[..|cmds| - 1]) + (if last.HasSlot() then [last] else [])
  }

  /**
   The live connection is a run of `SessionSafety` that began with the slots emptied before it, and
   the requests it issued are the last ones sent.
   */
  ghost predicate IsRun(s: Client) {
    s.conn.Some? ==>
      && SessionSafety.Run(s.base, s.since) == (s.conn.value, true)
      && s.sentBefore <= |s.sent| && WithSlots(s.conn.value.issued) == s.sent[s.sentBefore..]
      && s.base == SessionSafety.AnsweredSlots(s.log) && AllFit(s.sent[..s.sentBefore], s.log)
  }

  lemma MovedIsRun(s: Client, e: SessionSafety.Event)
    requires s.conn.Some? && SessionSafety.Run(s.base, s.since) == (s.conn.value, true)
    ensures SessionSafety.Run(s.base, s.since + [e]) == SessionSafety.Next(s.conn.value, e)
  {
    assert (s.since + [e])[..|s.since|] == s.since;
  }

  lemma InboundIssuesNothing(c: State, e: SessionSafety.Event)
    requires !e.Command?
    ensures SessionSafety.Next(c, e).0.issued == c.issued
  {
  }

  lemma FramedIssues(c: State, cmd: Cmd)
    ensures WithSlots(Framed(c, cmd).issued) == WithSlots(c.issued) + (if cmd.HasSlot() then [cmd] else [])
  {
    assert (c.issued + [cmd])[..|c.issued|] == c.issued;
  }

  lemma SendIsRun(s: Client, sendOk: bool)
    requires IsRun(s) && s.conn.Some? && s.pending != [] && s.pending[0].HasSlot()
    ensures IsRun(Send(s, sendOk))
  {
    var cmd := s.pending[0];
    MovedIsRun(s, SessionSafety.Command(cmd));
    FramedIssues(s.conn.value, cmd);
    OneMore(s.sent, cmd, s.sentBefore);
    hide Framed, WithSlots, AllFit, SessionSafety.Run, SessionSafety.AnsweredSlots;
  }

  lemma OneMore<T>(a: seq<T>, x: T, n: nat)
    requires n <= |a|
    ensures (a + [x])[n..] == a[n..] + [x] && (a + [x])[..n] == a[..n]
  {
  }

  lemma StepKeepsIsRun(s: Client, e: Event)
    requires Inv(s) && IsRun(s)
    ensures IsRun(Next(s, e))
  {
    match e
    case Submit(c) =>
      hide SessionSafety.Run, WithSlots, AllFit;
    case Connect =>
      if s.conn.None? {
        hide AllFit;
        assert s.sent[|s.sent|..] == [] && s.sent[..|s.sent|] == s.sent;
      }
    case Turn(sendOk) =>
      hide ConnOk, SlotsOk, AllFit, WithSlots, SessionSafety.Run;
      if s.conn.Some? {
        if s.pending != [] {
          assert s.submitted[|s.sent|] == s.pending[0];
          SendIsRun(s, sendOk);
        } else if s.channel != [] {
          assert s.submitted[|s.sent|] == s.channel[0];
          SendIsRun(s.(channel := s.channel[1..], pending := [s.channel[0]]), sendOk);
        }
      }
    case Key(c, sendOk) =>
      if s.conn.Some? && !c.HasSlot() {
        MovedIsRun(s, SessionSafety.Command(c));
        FramedIssues(s.conn.value, c);
        hide Framed, WithSlots, AllFit, SessionSafety.Run;
      }
    case Respond(id, body) =>
      if s.conn.Some? {
        InboundIsRun(s, SessionSafety.Response(id, body));
      }
    case Receive(stream, seqNo, hasOffset) =>
      if s.conn.Some? {
        InboundIsRun(s, SessionSafety.Data(stream, seqNo, hasOffset));
      }
    case GiveUp(order) =>
      hide SessionSafety.Run, WithSlots, AllFit;
    case BreakOff =>
      hide SessionSafety.Run, WithSlots, AllFit;
  }

  lemma InboundIsRun(s: Client, e: SessionSafety.Event)
    requires IsRun(s) && s.conn.Some? && !e.Command?
    ensures IsRun(Inbound(s, e))
  {
    MovedIsRun(s, e);
    InboundIssuesNothing(s.conn.value, e);
    hide SessionSafety.Run, SessionSafety.Next, WithSlots, AllFit;
  }

  lemma {:induction false} RunIsRun(events: seq<Event>)
    ensures IsRun(Run(events))
  {
    if events != [] {
      RunIsRun(events[..|events| - 1]);
      RunKeepsInv(events[..|events| - 1]);
      StepKeepsIsRun(Run(events[..|events| - 1]), events[|events| - 1]);
    }
  }

  lemma {:induction false} InWithSlots(cmds: seq<Cmd>, i: nat) returns (k: nat)
    requires i < |cmds| && cmds[i].HasSlot()
    ensures k < |WithSlots(cmds)| && WithSlots(cmds)[k] == cmds[i]
    ensures k == |WithSlots(cmds[..i])|
  {
    var front := cmds[..|cmds| - 1];
    if i < |front| {
      k := InWithSlots(front, i);
      assert front[..i] == cmds[..i];
    } else {
      k := |WithSlots(front)|;
      assert cmds[..i] == front;
    }
  }

  lemma {:induction false} WithSlotsGrows(cmds: seq<Cmd>, i: nat, j: nat)
    requires i < j <= |cmds| && cmds[i].HasSlot()
    ensures |WithSlots(cmds[..i])| < |WithSlots(cmds[..j])|
  {
    assert cmds[..j][..j - 1] == cmds[..j - 1];
    if i < j - 1 {
      WithSlotsGrows(cmds, i, j - 1);
    }
  }

  lemma IssuedAreFresh(s: Client)
    requires Inv(s) && IsRun(s) && s.conn.Some? && OwnSlots(s.submitted)
    ensures SessionSafety.FreshSlots(s.base, s.conn.value.issued)
  {
    var issued := s.conn.value.issued;
    assert forall k :: 0 <= k < |s.sent| ==> s.sent[k] == s.submitted[k];
    forall i | 0 <= i < |issued| && issued[i].HasSlot()
      ensures issued[i].slot !in s.base
    {
      var k := InWithSlots(issued, i);
      assert issued[i] == s.submitted[s.sentBefore + k];
      if issued[i].slot in s.base {
        var m := LoggedWasSent(s, issued[i].slot);
      }
    }
    forall i, j | 0 <= i < j < |issued| && issued[i].HasSlot() && issued[j].HasSlot()
      ensures issued[i].slot != issued[j].slot
    {
      var a := InWithSlots(issued, i);
      var b := InWithSlots(issued, j);
      WithSlotsGrows(issued, i, j);
      assert issued[i] == s.submitted[s.sentBefore + a] && issued[j] == s.submitted[s.sentBefore + b];
    }
  }

  lemma LoggedWasSent(s: Client, w: Slot) returns (k: nat)
    requires Inv(s) && IsRun(s) && s.conn.Some? && w in s.base
    ensures k < s.sentBefore && k < |s.submitted| && s.submitted[k].HasSlot() && s.submitted[k].slot == w
  {
    hide ConnOk;
    var i :| 0 <= i < |s.log| && s.log[i].slot == w;
    var early := s.sent[..s.sentBefore];
    assert Fits(early, s.log[i]);
    var txn :| IsOf(txn, early) && txn.SlotOf() == Some(w);
    k :| 0 <= k < |early| && TxnOf(early[k]) == txn;
    SessionSafety.SlotOfCmd(early[k]);
    assert s.submitted[k] == s.sent[k];
  }

  /**
   So everything `SessionSafety` proves of one connection holds of every connection of the client,
   for as long as it makes fewer than 2^32 - 1 requests.
   */
  lemma EveryConnectionIsSafe(events: seq<Event>)
    requires var s := Run(events);
             s.conn.Some? && |s.conn.value.issued| < U32_MAX && OwnSlots(s.submitted)
    ensures var s := Run(events); SessionSafety.Inv(s.base, s.conn.value, true)
  {
    var s := Run(events);
    RunKeepsInv(events);
    RunIsRun(events);
    IssuedAreFresh(s);
    SessionSafety.RunKeepsInv(s.base, s.since);
  }
}
