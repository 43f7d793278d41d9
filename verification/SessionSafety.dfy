/** What every run of one connection keeps. */
module SessionSafety {
  import opened Base
  import opened Session

  datatype Event =
    | Command(cmd: Cmd)
    | Response(id: nat, body: Body)
    | Data(stream: StreamId, seqNo: nat, hasOffset: bool)

  /** One event of a live connection; a protocol error ends it. */
  ghost function Next(s: State, e: Event): (State, bool) {
    match e
    case Command(c) => (Framed(s, c), true)
    case Response(id, body) => Responded(s, id, body)
    case Data(stream, seqNo, hasOffset) => Received(s, stream, seqNo, hasOffset)
  }

  /** A connection made when the slots in `emptied` have been answered already. */
  ghost function Run(emptied: set<Slot>, events: seq<Event>): (State, bool) {
    if events == [] then (Connected(emptied), true)
    else
      var (s, alive) := Run(emptied, events[..|events| - 1]);
      if alive then Next(s, events[|events| - 1]) else (s, false)
  }

  /** Every command that wants an answer brings a slot of its own, not answered before. */
  ghost predicate FreshSlots(emptied: set<Slot>, issued: seq<Cmd>) {
    && (forall i :: 0 <= i < |issued| && issued[i].HasSlot() ==> issued[i].slot !in emptied)
    && forall i, j :: 0 <= i < j < |issued| && issued[i].HasSlot() && issued[j].HasSlot() ==> issued[i].slot != issued[j].slot
  }

  // ----- The request table

  ghost predicate IdsOk(s: State) {
    && |s.ids| == |s.issued|
    && (forall k :: 0 <= k < |s.ids| ==> s.ids[k] == Min(k + 1, U32_MAX))
    && s.nextId == Min(|s.ids| + 1, U32_MAX)
  }

  /** A pending request is that of the command issued under its id, and its slot is still unanswered. */
  ghost predicate PendingOk(s: State) {
    forall id :: id in s.pending ==>
      && 1 <= id <= |s.issued|
      && s.pending[id] == TxnOf(s.issued[id - 1])
      && (s.pending[id].SlotOf().Some? ==> s.pending[id].SlotOf().value !in s.emptied)
  }

  /**
   An answer went to the slot of the command issued under its id, fits it, and settled the
   request; and the slots answered are those of before and of these answers.
   */
  ghost predicate AnswersOk(emptied: set<Slot>, s: State) {
    && (forall i :: 0 <= i < |s.answers| ==>
          var a := s.answers[i];
          && 1 <= a.request <= |s.issued|
          && a.request !in s.pending
          && TxnOf(s.issued[a.request - 1]).SlotOf() == Some(a.slot)
          && Matches(TxnOf(s.issued[a.request - 1]), a.body))
    && (forall i, j :: 0 <= i < j < |s.answers| ==>
          s.answers[i].slot != s.answers[j].slot && s.answers[i].request != s.answers[j].request)
    && s.emptied == emptied + AnsweredSlots(s.answers)
  }

  function AnsweredSlots(answers: seq<Answer>): set<Slot> {
    set i | 0 <= i < |answers| :: answers[i].slot
  }

  // ----- The streams

  function LastTold(told: seq<Told>, stream: StreamId): Option<(TerminalId, nat)> {
    if told == [] then None
    else if told[|told| - 1].stream == stream then Some((told[|told| - 1].terminal, told[|told| - 1].seqNo))
    else LastTold(told[..|told| - 1], stream)
  }

  /** Output comes after its opening, for the same terminal, and never goes back. */
  ghost predicate Ordered(told: seq<Told>) {
    forall i :: 0 <= i < |told| && told[i].Output? ==>
      var last := LastTold(told[..i], told[i].stream);
      last.Some? && last.value.0 == told[i].terminal && last.value.1 <= told[i].seqNo
  }

  ghost predicate StreamsOk(s: State) {
    && Ordered(s.told)
    && (forall id :: id in s.streams ==> LastTold(s.told, id) == Some((s.streams[id].terminal, s.streams[id].lastSeq)))
  }

  /** An active terminal exists exactly when a handle does, and its stream is known under the same terminal. */
  ghost predicate ActiveOk(s: State) {
    && s.active == s.handle
    && (s.active.Some? ==>
          && s.active.value.stream in s.streams
          && s.streams[s.active.value.stream] == Stream(s.active.value.terminal, s.active.value.lastSeq))
  }

  ghost predicate Inv(emptied: set<Slot>, s: State, alive: bool) {
    IdsOk(s) && PendingOk(s) && AnswersOk(emptied, s) && StreamsOk(s) && (alive ==> ActiveOk(s))
  }

  // ----- Steps

  lemma ToldSnoc(told: seq<Told>, x: Told, stream: StreamId)
    ensures LastTold(told + [x], stream) == if x.stream == stream then Some((x.terminal, x.seqNo)) else LastTold(told, stream)
  {
    assert (told + [x])[..|told|] == told;
  }

  lemma OrderedSnoc(told: seq<Told>, x: Told)
    requires Ordered(told)
    requires x.Output? ==>
               var last := LastTold(told, x.stream);
               last.Some? && last.value.0 == x.terminal && last.value.1 <= x.seqNo
    ensures Ordered(told + [x])
  {
    var longer := told + [x];
    forall i | 0 <= i < |longer| && longer[i].Output?
      ensures var last := LastTold(longer[..i], longer[i].stream);
              last.Some? && last.value.0 == longer[i].terminal && last.value.1 <= longer[i].seqNo
    {
      assert longer[..i] == told[..i];
      assert i == |told| ==> told[..i] == told;
    }
  }

  lemma FramedKeeps(emptied: set<Slot>, s: State, c: Cmd)
    requires Inv(emptied, s, true) && |Framed(s, c).issued| < U32_MAX && FreshSlots(emptied, Framed(s, c).issued)
    ensures Inv(emptied, Framed(s, c), true)
  {
    hide Ordered, LastTold;
    var s' := Framed(s, c);
    if CanFrame(s.handle, c) {
      assert s'.issued == s.issued + [c];
      FramedTable(emptied, s, s', c);
    }
  }

  lemma FramedTable(emptied: set<Slot>, s: State, s': State, c: Cmd)
    requires IdsOk(s) && PendingOk(s) && AnswersOk(emptied, s) && |s'.issued| < U32_MAX && FreshSlots(emptied, s'.issued)
    requires s'.issued == s.issued + [c] && s'.pending == s.pending[s.nextId := TxnOf(c)] && s'.answers == s.answers
    requires s'.emptied == s.emptied
    ensures PendingOk(s') && AnswersOk(emptied, s')
  {
    var n := |s.issued|;
    assert s.nextId == n + 1 && s'.issued[n] == c;
    SlotOfCmd(c);
    forall i | 0 <= i < |s.answers|
      ensures s.answers[i].request <= n && s'.issued[s.answers[i].request - 1] == s.issued[s.answers[i].request - 1]
      ensures c.HasSlot() ==> s.answers[i].slot != c.slot
    {
      var a := s.answers[i];
      SlotOfCmd(s.issued[a.request - 1]);
      assert s'.issued[a.request - 1] == s.issued[a.request - 1];
    }
  }

  lemma SlotOfCmd(c: Cmd)
    ensures TxnOf(c).SlotOf() == if c.HasSlot() then Some(c.slot) else None
  {
  }

  /** Settling a pending request with an answer that fits it. */
  lemma AnsweredKeeps(emptied: set<Slot>, s: State, id: nat, body: Body)
    requires PendingOk(s) && AnswersOk(emptied, s) && FreshSlots(emptied, s.issued)
    requires id in s.pending && Matches(s.pending[id], body)
    ensures var s' := Answered(Removed(s, id), s.pending[id].SlotOf(), id, body);
            PendingOk(s') && AnswersOk(emptied, s')
  {
    var slot := s.pending[id].SlotOf();
    var s' := Answered(Removed(s, id), slot, id, body);
    if slot.Some? {
      SlotOfCmd(s.issued[id - 1]);
      OthersKeepSlots(emptied, s, id);
      assert s'.answers == s.answers + [Answer(slot.value, id, body)];
      AnswerAdded(emptied, s, s', id, body);
    } else {
      RemovedKeeps(emptied, s, id);
    }
  }

  /** No other pending request shares the slot. */
  lemma OthersKeepSlots(emptied: set<Slot>, s: State, id: nat)
    requires PendingOk(s) && FreshSlots(emptied, s.issued) && id in s.pending && s.pending[id].SlotOf().Some?
    ensures forall k :: k in s.pending && k != id && s.pending[k].SlotOf().Some? ==>
                          s.pending[k].SlotOf().value != s.pending[id].SlotOf().value
  {
    SlotOfCmd(s.issued[id - 1]);
    forall k | k in s.pending && k != id && s.pending[k].SlotOf().Some?
      ensures s.pending[k].SlotOf().value != s.pending[id].SlotOf().value
    {
      SlotOfCmd(s.issued[k - 1]);
      if k < id {
        assert s.issued[k - 1].slot != s.issued[id - 1].slot;
      } else {
        assert s.issued[id - 1].slot != s.issued[k - 1].slot;
      }
    }
  }

  lemma AnswerAdded(emptied: set<Slot>, s: State, s': State, id: nat, body: Body)
    requires PendingOk(s) && AnswersOk(emptied, s) && id in s.pending && s.pending[id].SlotOf().Some?
    requires Matches(s.pending[id], body)
    requires s' == s.(pending := s.pending - {id}, emptied := s.emptied + {s.pending[id].SlotOf().value},
                      answers := s.answers + [Answer(s.pending[id].SlotOf().value, id, body)])
    ensures AnswersOk(emptied, s')
  {
    var last := Answer(s.pending[id].SlotOf().value, id, body);
    assert s'.answers == s.answers + [last];
    AnsweredSnoc(s.answers, last);
    assert TxnOf(s.issued[id - 1]).SlotOf() == Some(last.slot) && Matches(TxnOf(s.issued[id - 1]), body);
    forall i | 0 <= i < |s.answers|
      ensures s.answers[i].slot != last.slot
    {
      assert s.answers[i].slot in AnsweredSlots(s.answers);
    }
    hide Matches, TxnOf, AnsweredSlots, PendingOk;
    assert emptied + (AnsweredSlots(s.answers) + {last.slot}) == emptied + AnsweredSlots(s.answers) + {last.slot};
    forall i | 0 <= i < |s'.answers|
      ensures s'.answers[i] == if i < |s.answers| then s.answers[i] else last
    {
    }
  }

  lemma AnsweredSnoc(answers: seq<Answer>, a: Answer)
    ensures AnsweredSlots(answers + [a]) == AnsweredSlots(answers) + {a.slot}
  {
    var longer := answers + [a];
    forall i | 0 <= i < |answers|
      ensures longer[i] == answers[i]
    {
    }
    assert longer[|answers|] == a;
    forall w | w in AnsweredSlots(answers)
      ensures w in AnsweredSlots(longer)
    {
      var i :| 0 <= i < |answers| && answers[i].slot == w;
      assert longer[i].slot == w;
    }
  }

  lemma RemovedKeeps(emptied: set<Slot>, s: State, id: nat)
    requires PendingOk(s) && AnswersOk(emptied, s)
    ensures PendingOk(Removed(s, id)) && AnswersOk(emptied, Removed(s, id))
  {
  }

  /** The table does not depend on the streams. */
  lemma TableOnly(emptied: set<Slot>, s: State, s': State)
    requires PendingOk(s) && AnswersOk(emptied, s)
    requires s'.pending == s.pending && s'.answers == s.answers && s'.issued == s.issued && s'.emptied == s.emptied
    ensures PendingOk(s') && AnswersOk(emptied, s')
  {
  }

  lemma RespondedKeeps(emptied: set<Slot>, s: State, id: nat, body: Body)
    requires Inv(emptied, s, true) && FreshSlots(emptied, s.issued)
    ensures Inv(emptied, Responded(s, id, body).0, Responded(s, id, body).1)
  {
    hide Ordered, LastTold, PendingOk, AnswersOk;
    var (s', ok) := Responded(s, id, body);
    if id in s.pending {
      var txn := s.pending[id];
      RemovedKeeps(emptied, s, id);
      if body.OpenOk? && txn.OpenTxn? {
        var x := Opened(body.stream, body.terminal, body.endSeq);
        OrderedSnoc(s.told, x);
        forall st | st in s'.streams
          ensures LastTold(s.told + [x], st) == if x.stream == st then Some((x.terminal, x.seqNo)) else LastTold(s.told, st)
        {
          ToldSnoc(s.told, x, st);
        }
        if txn.terminal == body.terminal {
          AnsweredKeeps(emptied, s, id, body);
          TableOnly(emptied, Answered(Removed(s, id), txn.SlotOf(), id, body), s');
        } else {
          TableOnly(emptied, Removed(s, id), s');
        }
      } else if !body.OpenOk? && Matches(txn, body) {
        AnsweredKeeps(emptied, s, id, body);
      }
    }
  }

  lemma ReceivedKeeps(emptied: set<Slot>, s: State, stream: StreamId, seqNo: nat, hasOffset: bool)
    requires Inv(emptied, s, true)
    ensures Inv(emptied, Received(s, stream, seqNo, hasOffset).0, Received(s, stream, seqNo, hasOffset).1)
  {
    hide Ordered, LastTold, PendingOk, AnswersOk;
    var s' := Received(s, stream, seqNo, hasOffset).0;
    TableOnly(emptied, s, s');
    if s'.told != s.told {
      var x := s'.told[|s.told|];
      assert s'.told == s.told + [x];
      OrderedSnoc(s.told, x);
      forall st | st in s'.streams
        ensures LastTold(s.told + [x], st) == if x.stream == st then Some((x.terminal, x.seqNo)) else LastTold(s.told, st)
      {
        ToldSnoc(s.told, x, st);
      }
    }
  }

  lemma FreshPrefix(emptied: set<Slot>, a: seq<Cmd>, b: seq<Cmd>)
    requires a <= b && FreshSlots(emptied, b)
    ensures FreshSlots(emptied, a)
  {
    assert a == b[..|a|];
  }

  lemma IssuedGrows(s: State, e: Event)
    ensures s.issued <= Next(s, e).0.issued
  {
  }

  /**
   In every run of one connection with fewer than 2^32 - 1 requests, each with a slot of its
   own: every answer goes to the slot of the request it names, once, and fits that request in
   kind and, for an open or a history page, in terminal; what is told of a stream follows its
   opening and never goes back; and while the connection lives, active terminal, handle and
   stream agree.
   */
  lemma {:induction false} RunKeepsInv(emptied: set<Slot>, events: seq<Event>)
    requires |Run(emptied, events).0.issued| < U32_MAX && FreshSlots(emptied, Run(emptied, events).0.issued)
    ensures Inv(emptied, Run(emptied, events).0, Run(emptied, events).1)
  {
    if events != [] {
      var front, e := events[..|events| - 1], events[|events| - 1];
      var (s, alive) := Run(emptied, front);
      if alive {
        IssuedGrows(s, e);
        FreshPrefix(emptied, s.issued, Run(emptied, events).0.issued);
        RunKeepsInv(emptied, front);
        match e
        case Command(c) => FramedKeeps(emptied, s, c);
        case Response(id, body) => RespondedKeeps(emptied, s, id, body);
        case Data(stream, seqNo, hasOffset) => ReceivedKeeps(emptied, s, stream, seqNo, hasOffset);
      } else {
        RunKeepsInv(emptied, front);
      }
    }
  }

  // ----- Consequences

  lemma {:induction false} RunIds(emptied: set<Slot>, events: seq<Event>)
    ensures IdsOk(Run(emptied, events).0)
  {
    if events != [] {
      RunIds(emptied, events[..|events| - 1]);
    }
  }

  /** The ids of a connection are distinct exactly as long as it makes at most 2^32 - 1 requests. */
  lemma IdsDistinctIff(emptied: set<Slot>, events: seq<Event>)
    ensures var ids := Run(emptied, events).0.ids;
            (forall i, j :: 0 <= i < j < |ids| ==> ids[i] != ids[j]) <==> |ids| <= U32_MAX
  {
    RunIds(emptied, events);
    var ids := Run(emptied, events).0.ids;
    hide Run;
    if |ids| > U32_MAX {
      assert ids[U32_MAX - 1] == ids[U32_MAX];
    }
  }

  /** A request that is no longer pending stays settled: any further response to its id is an error. */
  lemma SettledStaysSettled(s: State, e: Event, id: nat)
    requires IdsOk(s) && 1 <= id <= |s.issued| && id !in s.pending
    requires |Next(s, e).0.issued| < U32_MAX
    ensures id !in Next(s, e).0.pending && 1 <= id <= |Next(s, e).0.issued|
    ensures forall body :: !Responded(s, id, body).1
  {
  }

  lemma {:induction false} SecondResponseIsAnError(emptied: set<Slot>, events: seq<Event>, more: seq<Event>, id: nat, body: Body)
    requires var s := Run(emptied, events).0; 1 <= id <= |s.issued| && id !in s.pending
    requires |Run(emptied, events + more).0.issued| < U32_MAX
    ensures var s := Run(emptied, events + more).0;
            id !in s.pending && 1 <= id <= |s.issued| && !Responded(s, id, body).1
    decreases |more|
  {
    if more == [] {
      assert events + more == events;
    } else {
      var front, e := more[..|more| - 1], more[|more| - 1];
      assert (events + more)[..|events + more| - 1] == events + front;
      var (s, alive) := Run(emptied, events + front);
      RunIds(emptied, events + front);
      if alive {
        IssuedGrows(s, e);
        SecondResponseIsAnError(emptied, events, front, id, body);
        SettledStaysSettled(s, e, id);
      } else {
        SecondResponseIsAnError(emptied, events, front, id, body);
      }
    }
  }

  lemma ResponseSettles(s: State, id: nat, body: Body)
    requires Responded(s, id, body).1
    ensures id in s.pending && id !in Responded(s, id, body).0.pending
    ensures Responded(s, id, body).0.issued == s.issued
  {
  }

  ghost predicate PendingInRange(s: State) {
    forall id :: id in s.pending ==> 1 <= id <= |s.issued|
  }

  lemma NextPending(s: State, e: Event)
    requires IdsOk(s) && PendingInRange(s)
    ensures PendingInRange(Next(s, e).0)
  {
  }

  lemma {:induction false} PendingIds(emptied: set<Slot>, events: seq<Event>)
    ensures PendingInRange(Run(emptied, events).0)
  {
    if events != [] {
      PendingIds(emptied, events[..|events| - 1]);
      RunIds(emptied, events[..|events| - 1]);
      NextPending(Run(emptied, events[..|events| - 1]).0, events[|events| - 1]);
    }
  }

  /** A response that was accepted is the last one for its id: after any further run another ends the connection. */
  lemma AcceptedResponseIsTheLast(emptied: set<Slot>, events: seq<Event>, more: seq<Event>, id: nat, body: Body, again: Body)
    requires Run(emptied, events + [Response(id, body)]).1
    requires |Run(emptied, events + [Response(id, body)] + more).0.issued| < U32_MAX
    ensures !Run(emptied, events + [Response(id, body)] + more + [Response(id, again)]).1
  {
    var first := events + [Response(id, body)];
    RunSnoc(emptied, events, Response(id, body));
    PendingIds(emptied, events);
    ResponseSettles(Run(emptied, events).0, id, body);
    hide Run;
    SecondResponseIsAnError(emptied, first, more, id, again);
    RunSnoc(emptied, first + more, Response(id, again));
  }

  lemma RunSnoc(emptied: set<Slot>, events: seq<Event>, e: Event)
    ensures var (s, alive) := Run(emptied, events);
            Run(emptied, events + [e]) == if alive then Next(s, e) else (s, false)
  {
    assert (events + [e])[..|events|] == events;
  }

  // ----- Output on a stream the client has let go of

  lemma NextKeepsActive(s: State, e: Event)
    requires ActiveOk(s) && Next(s, e).1
    ensures ActiveOk(Next(s, e).0)
  {
  }

  /** While the connection lives, active terminal, handle and stream agree, however many requests there are. */
  lemma {:induction false} RunKeepsActive(emptied: set<Slot>, events: seq<Event>)
    requires Run(emptied, events).1
    ensures ActiveOk(Run(emptied, events).0)
  {
    if events != [] {
      var front := events[..|events| - 1];
      RunKeepsActive(emptied, front);
      NextKeepsActive(Run(emptied, front).0, events[|events| - 1]);
    }
  }

  lemma DataAcceptedIff(s: State, stream: StreamId, seqNo: nat, hasOffset: bool)
    requires ActiveOk(s)
    ensures Received(s, stream, seqNo, hasOffset).1 <==>
            && stream in s.streams && !hasOffset
            && (s.active.Some? && s.active.value.stream == stream ==> s.active.value.lastSeq <= seqNo)
  {
  }

  /** No open of the stream is acknowledged. */
  predicate NeverOpened(events: seq<Event>, stream: StreamId) {
    forall i :: 0 <= i < |events| && events[i].Response? && events[i].body.OpenOk? ==> events[i].body.stream != stream
  }

  /** A stream that is not known stays unknown until an open of it is acknowledged. */
  lemma {:induction false} UnknownStaysUnknown(emptied: set<Slot>, events: seq<Event>, more: seq<Event>, stream: StreamId)
    requires stream !in Run(emptied, events).0.streams && NeverOpened(more, stream)
    ensures stream !in Run(emptied, events + more).0.streams
    decreases |more|
  {
    if more == [] {
      assert events + more == events;
    } else {
      var front, e := more[..|more| - 1], more[|more| - 1];
      assert events + front + [e] == events + more;
      UnknownStaysUnknown(emptied, events, front, stream);
      RunSnoc(emptied, events + front, e);
      hide Run;
      NextOpensOnlyAcknowledged(Run(emptied, events + front).0, e, stream);
    }
  }

  lemma NextOpensOnlyAcknowledged(s: State, e: Event, stream: StreamId)
    requires stream !in s.streams && (e.Response? && e.body.OpenOk? ==> e.body.stream != stream)
    ensures stream !in Next(s, e).0.streams
  {
  }

  /** The command lets go of the active terminal: it opens one, or kills that one. */
  predicate LetsGo(c: Cmd, active: Active) {
    c.OpenTerminal? || (c.KillTerminal? && c.terminal == active.terminal)
  }

  lemma LettingGoForgets(s: State, c: Cmd)
    requires ActiveOk(s) && s.active.Some? && LetsGo(c, s.active.value)
    ensures s.active.value.stream !in Framed(s, c).streams
  {
  }

  /**
   Letting go of the active terminal forgets its stream, so output already on its way for it,
   however much later it comes, ends the connection instead of being ignored, unless an open
   of the same stream has been acknowledged in between.
   */
  lemma LateDataEndsConnection(emptied: set<Slot>, events: seq<Event>, c: Cmd, more: seq<Event>, seqNo: nat, hasOffset: bool)
    requires var (s, alive) := Run(emptied, events);
             alive && s.active.Some? && LetsGo(c, s.active.value) && NeverOpened(more, s.active.value.stream)
    ensures var stream := Run(emptied, events).0.active.value.stream;
            !Run(emptied, events + [Command(c)] + more + [Data(stream, seqNo, hasOffset)]).1
  {
    var s := Run(emptied, events).0;
    var stream := s.active.value.stream;
    var letGo := events + [Command(c)];
    RunKeepsActive(emptied, events);
    LettingGoForgets(s, c);
    RunSnoc(emptied, events, Command(c));
    UnknownStaysUnknown(emptied, letGo, more, stream);
    RunSnoc(emptied, letGo + more, Data(stream, seqNo, hasOffset));
    hide Run;
  }

  /** Exactly which stream frames a live connection survives, in any run. */
  lemma DataSurvivedIff(emptied: set<Slot>, events: seq<Event>, stream: StreamId, seqNo: nat, hasOffset: bool)
    requires Run(emptied, events).1
    ensures var s := Run(emptied, events).0;
            Run(emptied, events + [Data(stream, seqNo, hasOffset)]).1 <==>
            && stream in s.streams && !hasOffset
            && (s.active.Some? && s.active.value.stream == stream ==> s.active.value.lastSeq <= seqNo)
  {
    RunKeepsActive(emptied, events);
    RunSnoc(emptied, events, Data(stream, seqNo, hasOffset));
    DataAcceptedIff(Run(emptied, events).0, stream, seqNo, hasOffset);
    hide Run;
  }

  /** The run: terminal 0 is open on stream 7, another is asked for, a frame of stream 7 arrives. */
  lemma LateDataHappens()
    ensures var events := [Command(OpenTerminal(0, 0)), Response(1, OpenOk(7, 0, 5)), Command(OpenTerminal(1, 1))];
            Run({}, events).1 && !Run({}, events + [Data(7, 9, false)]).1
  {
    var opened_ := [Command(OpenTerminal(0, 0)), Response(1, OpenOk(7, 0, 5))];
    var asked := [Command(OpenTerminal(0, 0))];
    assert [] + [Command(OpenTerminal(0, 0))] == asked && asked + [Response(1, OpenOk(7, 0, 5))] == opened_;
    RunSnoc({}, [], Command(OpenTerminal(0, 0)));
    RunSnoc({}, asked, Response(1, OpenOk(7, 0, 5)));
    RunSnoc({}, opened_, Command(OpenTerminal(1, 1)));
    assert Run({}, []) == (Connected({}), true);
    hide Run;
    assert Run({}, asked).0.pending == map[1 := OpenTxn(0, 0)];
    assert Run({}, opened_).1 && Run({}, opened_).0.active == Some(Active(0, 7, 5));
    LateDataEndsConnection({}, opened_, Command(OpenTerminal(1, 1)).cmd, [], 9, false);
    var events := opened_ + [Command(OpenTerminal(1, 1))];
    assert events == [Command(OpenTerminal(0, 0)), Response(1, OpenOk(7, 0, 5)), Command(OpenTerminal(1, 1))];
    assert events + [] + [Data(7, 9, false)] == events + [Data(7, 9, false)];
  }
}
